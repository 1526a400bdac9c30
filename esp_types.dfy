/** Small value types shared by the Wi-Fi and MQTT models. */
module EspTypes {

  datatype Option<+T> = None | Some(value: T)

  /** An `esp_err_t` as the driver returns it: `ESP_OK` or some error code. */
  datatype EspErr = EspOk | EspFail(code: int)

  /** Number of occurrences of `x` in `s`. */
  function Count<T(==)>(s: seq<T>, x: T): (n: nat)
    ensures n <= |s|
    ensures n == 0 <==> x !in s
  {
    if s == [] then 0 else (if s[0] == x then 1 else 0) + Count(s[1..], x)
  }

  lemma {:induction false} CountAppend<T>(s: seq<T>, t: seq<T>, x: T)
    ensures Count(s + t, x) == Count(s, x) + Count(t, x)
  {
    if s == [] {
      assert s + t == t;
    } else {
      assert (s + t)[1..] == s[1..] + t;
      CountAppend(s[1..], t, x);
    }
  }
}
