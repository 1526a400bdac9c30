/** Forwarding of log lines to MQTT.  Every formatted log line is echoed to
    the console; the part after the first `')'` and the space behind it,
    which in an ESP-IDF log line is everything after the level letter and
    the timestamp, is also published.  The offset arithmetic is done in
    `size_t`, so "no `')'` at all" (`npos`) plus two wraps around to 1. */
module MqttLogging {
  import opened EspTypes
  import opened Mqtt

  /** `size_t` on the 32-bit ESP32 targets, and `std::string_view::npos`. */
  const SizeModulus := 0x1_0000_0000
  const Npos := SizeModulus - 1

  /** The logger's formatting buffer holds at most 255 characters and the
      terminating NUL. */
  const LogBufferSize := 256

  const LogTopic := "simarine_esp/log"
  const LogQos := AtLeastOnce
  const DiscoveryTopic := "homeassistant/device/esp_log/config"

  /** The Home Assistant device-discovery document: the device, origin and
      component lines, and the last lines, which name the state topic and
      the QoS level. */
  const DiscoveryHead := "\n{\n\"dev\":{\"ids\": \"simarine_esp_log\", \"name\": \"Simarine ESP Log\"},\n\"o\":{\"name\": \"simarine_esp_log\",\"sw\": \"0.1\",\"url\": \"https://github.com/christopher-strack/esp_simarine_home_assistant\"},\n\"cmps\": {\"simarine_esp_log\": {\"p\": \"sensor\",\"unique_id\": \"simarine_esp_log\"}},\n"
  const DiscoveryTail := "\"state_topic\": \"simarine_esp/log\",\"qos\": 1\n}\n"
  const DiscoveryMessage := DiscoveryHead + DiscoveryTail

  /** Addition of two `size_t` values. */
  function SizeAdd(a: nat, b: nat): (r: nat)
    requires a < SizeModulus && b < SizeModulus
    ensures r < SizeModulus
    ensures r == if a + b < SizeModulus then a + b else a + b - SizeModulus
  {
    (a + b) % SizeModulus
  }

  /** `find(c)`: the index of the first `c`, or `npos` when there is none. */
  function Find(data: string, c: char): (pos: nat)
    requires |data| < Npos
    ensures pos == Npos <==> c !in data
    ensures pos != Npos ==> pos < |data| && data[pos] == c
    ensures forall k :: 0 <= k < |data| && k < pos ==> data[k] != c
    decreases |data|
  {
    if data == [] then Npos
    else if data[0] == c then 0
    else
      var p := Find(data[1..], c);
      if p == Npos then Npos else p + 1
  }

  /** What `log` publishes for the formatted line `data`: the suffix two
      characters after the first `')'`, when that offset lies inside the
      line. */
  function LogPayload(data: string): (r: Option<string>)
    requires |data| < LogBufferSize
    ensures r.Some? ==> 0 < |r.value| < |data| && r.value == data[|data| - |r.value|..]
    ensures r.Some? && ')' in data ==>
              |r.value| + 2 <= |data| &&
              data[|data| - |r.value| - 2] == ')' && ')' !in data[..|data| - |r.value| - 2]
  {
    var start := SizeAdd(Find(data, ')'), 2);
    if start < |data| then Some(data[start..]) else None
  }

  /** With the first `')'` at `p`, the payload is the line from `p + 2` on,
      or nothing when the `')'` is one of the last two characters; a later
      `')'` does not matter. */
  lemma PayloadAfterFirstParen(data: string, p: nat)
    requires |data| < LogBufferSize
    requires p < |data| && data[p] == ')' && ')' !in data[..p]
    ensures LogPayload(data) == if p + 2 < |data| then Some(data[p + 2..]) else None
  {
    assert Find(data, ')') == p;
  }

  /** Without any `')'`, `npos + 2` wraps to 1: the payload is the line
      without its first character, or nothing for a one-character line. */
  lemma PayloadWithoutParen(data: string)
    requires |data| < LogBufferSize
    requires ')' !in data
    ensures LogPayload(data) == if |data| >= 2 then Some(data[1..]) else None
  {
  }

  /** An ESP-IDF log line, `"I (1234) tag: text"` with the colour codes that
      may lead it, publishes `"tag: text"`. */
  lemma EspLogLinePayload(prefix: string, timestamp: string, message: string)
    requires ')' !in prefix && ')' !in timestamp && message != []
    requires |prefix| + |timestamp| + |message| + 2 < LogBufferSize
    ensures LogPayload(prefix + timestamp + ") " + message) == Some(message)
  {
    var data := prefix + timestamp + ") " + message;
    var p := |prefix| + |timestamp|;
    assert data[..p] == prefix + timestamp;
    assert data[p] == ')';
    PayloadAfterFirstParen(data, p);
    assert data[p + 2..] == message;
  }

  /** The bytes `vsprintf` wrote and the count it returned: the line's
      length, or a negative number on an error. */
  predicate FormatResult(formatted: string, result: int) {
    |formatted| < LogBufferSize && (result >= 0 ==> result == |formatted|)
  }

  /** What a call to `log` publishes: nothing unless the formatted length is
      positive, and otherwise a proper suffix of the line. */
  function LogPublication(formatted: string, result: int): (r: Option<string>)
    requires FormatResult(formatted, result)
    ensures result <= 0 ==> r == None
    ensures r.Some? ==> 0 < |r.value| < |formatted| && r.value == formatted[|formatted| - |r.value|..]
  {
    if result > 0 then LogPayload(formatted[..result]) else None
  }

  /** A slice of the second part of a concatenation. */
  lemma SliceOfAppend(a: string, b: string, i: nat, j: nat)
    requires i <= j <= |b|
    ensures (a + b)[|a| + i..|a| + j] == b[i..j]
  {
  }

  /** The last lines of the document open with the state topic and go on,
      after a comma, with the QoS level. */
  lemma TailFields()
    ensures DiscoveryTail[0..33] == "\"state_topic\": \"" + LogTopic + "\""
    ensures DiscoveryTail[34..42] == "\"qos\": 1"
  {
  }

  /** The discovery document names the log topic as its state topic. */
  lemma DiscoveryNamesLogTopic()
    ensures DiscoveryMessage[|DiscoveryHead|..|DiscoveryHead| + 33]
            == "\"state_topic\": \"" + LogTopic + "\""
  {
    SliceOfAppend(DiscoveryHead, DiscoveryTail, 0, 33);
    TailFields();
  }

  /** The discovery document declares the QoS level log lines are published
      with. */
  lemma DiscoveryNamesLogQos()
    ensures DiscoveryMessage[|DiscoveryHead| + 34..|DiscoveryHead| + 42]
            == "\"qos\": " + [('0' as int + QosLevel(LogQos)) as char]
  {
    SliceOfAppend(DiscoveryHead, DiscoveryTail, 34, 42);
    TailFields();
  }

  /** The logger, publishing through a client it holds by reference. */
  class MqttLogger {
    const client: MqttClient

    constructor (client: MqttClient)
      ensures this.client == client
    {
      this.client := client;
    }

    /** `log`: publishes the extracted payload, if any, and always returns
        what `vprintf` returned for the console, whatever the publish
        returned. */
    method Log(formatted: string, result: int, consoleResult: int, publishResult: int) returns (r: int)
      requires FormatResult(formatted, result)
      requires client.Valid()
      modifies client
      ensures r == consoleResult
      ensures client.Valid()
      ensures client.started == old(client.started) && client.subscriptions == old(client.subscriptions)
      ensures client.calls == old(client.calls) +
                match LogPublication(formatted, result)
                case Some(payload) => [PublishMessage(LogTopic, payload, QosLevel(LogQos), false)]
                case None => []
    {
      if result > 0 {
        var data := formatted[..result];
        var start := SizeAdd(Find(data, ')'), 2);
        if start < |data| {
          var _ := client.Publish(LogTopic, data[start..], LogQos, false, publishResult);
        }
      }
      r := consoleResult;
    }

    /** `send_device_discovery`. */
    method SendDeviceDiscovery(publishResult: int)
      requires client.Valid()
      modifies client
      ensures client.Valid()
      ensures client.started == old(client.started) && client.subscriptions == old(client.subscriptions)
      ensures client.calls == old(client.calls) + [PublishMessage(DiscoveryTopic, DiscoveryMessage, QosLevel(LogQos), false)]
    {
      var _ := client.Publish(DiscoveryTopic, DiscoveryMessage, LogQos, false, publishResult);
    }
  }
}
