/** The one-shot completion shared by the Wi-Fi and the MQTT "connected"
    promises.  Each wraps a `std::promise<void>` whose `set_value` may be
    called once only, behind a `_value_set` flag: the handler completes the
    promise the first time it runs and does nothing afterwards. */
module OneShot {

  /** The flag and the number of `set_value` calls made on the promise. */
  datatype PromiseState = PromiseState(valueSet: bool, setValueCalls: nat)

  /** A freshly constructed promise. */
  const Pending := PromiseState(false, 0)

  /** The flag says exactly whether `set_value` has been called, which it
      has been at most once. */
  predicate Consistent(p: PromiseState) {
    p.setValueCalls == if p.valueSet then 1 else 0
  }

  /** A waiter blocked in `wait()` is released exactly when the value is set. */
  predicate Ready(p: PromiseState) {
    p.setValueCalls > 0
  }

  /** The guarded completion `if (!_value_set) { set_value(); _value_set = true; }`. */
  function Complete(p: PromiseState): (r: PromiseState)
    ensures Consistent(p) ==> Consistent(r) && Ready(r)
    ensures p.valueSet ==> r == p
  {
    if p.valueSet then p else PromiseState(true, p.setValueCalls + 1)
  }

  /** The promise after a run of handler invocations; `signals[k]` says
      whether the k-th invocation met the handler's condition. */
  function CompleteAll(p: PromiseState, signals: seq<bool>): PromiseState
    decreases |signals|
  {
    if signals == [] then p
    else CompleteAll(if signals[0] then Complete(p) else p, signals[1..])
  }

  /** However many invocations signal, the value is set at most once: starting
      from a fresh promise, it is set exactly once if any of them signalled
      and never otherwise. */
  lemma {:induction false} CompleteAllSetsOnce(p: PromiseState, signals: seq<bool>)
    requires Consistent(p)
    ensures Consistent(CompleteAll(p, signals))
    ensures CompleteAll(p, signals).valueSet <==> p.valueSet || true in signals
    ensures CompleteAll(p, signals).setValueCalls <= 1
    decreases |signals|
  {
    if signals != [] {
      var q := if signals[0] then Complete(p) else p;
      CompleteAllSetsOnce(q, signals[1..]);
      assert true in signals <==> signals[0] || true in signals[1..];
    }
  }

  /** One more invocation at the end of a run. */
  lemma {:induction false} CompleteAllOneMore(p: PromiseState, signals: seq<bool>, b: bool)
    ensures CompleteAll(p, signals + [b])
            == if b then Complete(CompleteAll(p, signals)) else CompleteAll(p, signals)
    decreases |signals|
  {
    if signals == [] {
      assert signals + [b] == [b];
    } else {
      assert (signals + [b])[1..] == signals[1..] + [b];
      CompleteAllOneMore(if signals[0] then Complete(p) else p, signals[1..], b);
    }
  }

  /** A promise that is already complete stays exactly as it is. */
  lemma {:induction false} CompleteAllAfterSet(p: PromiseState, signals: seq<bool>)
    requires p.valueSet
    ensures CompleteAll(p, signals) == p
    decreases |signals|
  {
    if signals != [] {
      CompleteAllAfterSet(p, signals[1..]);
    }
  }
}
