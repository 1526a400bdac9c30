/** The MQTT client wrapper: publishing and its result, the subscription
    registry that routes inbound DATA events to the handler registered for
    their topic, error reporting, the start/stop bookkeeping, and the
    "connected" promise.

    Calls into the MQTT driver are recorded as `ClientCall`s appended to a
    log, and the integer a driver call returns is a parameter. */
module Mqtt {
  import opened EspTypes
  import opened OneShot

  /** `mqtt_qos`: the quality-of-service levels 0, 1 and 2 of section 4.3 of
      MQTT 3.1.1. */
  datatype Qos = AtMostOnce | AtLeastOnce | ExactlyOnce

  /** `static_cast<int>(qos)`. */
  function QosLevel(q: Qos): (level: int)
    ensures 0 <= level <= 2
  {
    match q
    case AtMostOnce => 0
    case AtLeastOnce => 1
    case ExactlyOnce => 2
  }

  /** Distinct levels reach the driver as distinct integers. */
  lemma QosLevelInjective(a: Qos, b: Qos)
    requires QosLevel(a) == QosLevel(b)
    ensures a == b
  {
  }

  /** A `subscribe_callback`, known by identity; invoking one is a
      `ClientCall`. */
  datatype Handler = Handler(id: nat)

  datatype ErrorType = TcpTransport | ConnectionRefused | OtherErrorType(code: int)

  /** What `report_error` writes to the log. */
  datatype ErrorReport = TransportError | ConnectionRefusedError

  /** The events registered for with `MQTT_EVENT_ANY`.  A DATA event carries
      the driver's topic and payload buffers and the lengths that delimit
      the topic and the payload in them. */
  datatype MqttEvent =
    | Connected
    | Disconnected
    | Error(errorType: ErrorType)
    | Subscribed
    | Unsubscribed
    | Data(topic: string, topicLen: int, data: string, dataLen: int)
    | OtherEvent(id: int)

  /** The driver delivers lengths that lie within its buffers. */
  predicate WellFormed(e: MqttEvent) {
    e.Data? ==> 0 <= e.topicLen <= |e.topic| && 0 <= e.dataLen <= |e.data|
  }

  datatype ClientCall =
    | ClientInit
    | RegisterEvent
    | ClientStart
    | UnregisterEvent
    | ClientStop
    | PublishMessage(topic: string, payload: string, qos: int, retain: bool)
    | SubscribeSingle(topic: string, qos: int)
    | Invoke(handler: Handler, payload: string)
    | LogError(report: ErrorReport)

  /** `report_error`: transport errors and refused connections are logged,
      every other error type is not. */
  function ReportError(t: ErrorType): (r: Option<ErrorReport>)
    ensures r.Some? <==> t == TcpTransport || t == ConnectionRefused
    ensures r == Some(TransportError) <==> t == TcpTransport
  {
    match t
    case TcpTransport => Some(TransportError)
    case ConnectionRefused => Some(ConnectionRefusedError)
    case OtherErrorType(_) => None
  }

  /** `emplace`: inserts `v` under `k` unless `k` is already present, in
      which case the map is left as it was. */
  function Emplace<K, V>(m: map<K, V>, k: K, v: V): (r: map<K, V>)
    ensures r.Keys == m.Keys + {k}
    ensures r[k] == if k in m then m[k] else v
    ensures forall k' :: k' in m ==> r[k'] == m[k']
  {
    if k in m then m else m[k := v]
  }

  /** `notify_data`: the calls made for an inbound message, which invokes
      the handler stored under exactly `topic`, once, and nothing when no
      handler is. */
  function Dispatch(m: map<string, Handler>, topic: string, payload: string): (calls: seq<ClientCall>)
    ensures |calls| <= 1
    ensures calls == [] <==> topic !in m
    ensures topic in m ==> calls == [Invoke(m[topic], payload)]
  {
    if topic in m then [Invoke(m[topic], payload)] else []
  }

  /** `mqtt_event_handler`: the calls the client's handler makes for an
      event.  DATA is routed with the topic and payload cut to their
      lengths, ERROR is reported, the rest only log. */
  function EventCalls(m: map<string, Handler>, e: MqttEvent): (calls: seq<ClientCall>)
    requires WellFormed(e)
    ensures !e.Data? && !e.Error? ==> calls == []
    ensures e.Data? ==> calls == Dispatch(m, e.topic[..e.topicLen], e.data[..e.dataLen])
    ensures e.Error? ==>
              calls == if ReportError(e.errorType).Some? then [LogError(ReportError(e.errorType).value)] else []
  {
    match e
    case Data(topic, topicLen, data, dataLen) => Dispatch(m, topic[..topicLen], data[..dataLen])
    case Error(t) => (match ReportError(t) case Some(report) => [LogError(report)] case None => [])
    case _ => []
  }

  // ---------------------------------------------------------------------
  // The registry over a run of subscriptions

  /** A `subscribe` call: its topic, its callback, and what
      `esp_mqtt_client_subscribe_single` returned. */
  datatype SubscribeRequest = SubscribeRequest(topic: string, handler: Handler, driverResult: int)

  /** The registry after a run of subscriptions, each registered only when
      the driver accepted it. */
  function Register(m: map<string, Handler>, reqs: seq<SubscribeRequest>): (r: map<string, Handler>)
    ensures m.Keys <= r.Keys
    ensures forall topic :: topic in m ==> r[topic] == m[topic]
    decreases |reqs|
  {
    if reqs == [] then m
    else
      var q := reqs[0];
      Register(if q.driverResult >= 0 then Emplace(m, q.topic, q.handler) else m, reqs[1..])
  }

  /** The reference: the handler of the first accepted request for `topic`. */
  function FirstAccepted(reqs: seq<SubscribeRequest>, topic: string): Option<Handler>
    decreases |reqs|
  {
    if reqs == [] then None
    else if reqs[0].topic == topic && reqs[0].driverResult >= 0 then Some(reqs[0].handler)
    else FirstAccepted(reqs[1..], topic)
  }

  /** The registry keeps, for each topic, the handler it already had, or else
      the handler of the first accepted subscription: a later subscription
      to a registered topic does not replace its handler, and a refused one
      registers nothing. */
  lemma {:induction false} RegisterKeepsFirst(m: map<string, Handler>, reqs: seq<SubscribeRequest>, topic: string)
    ensures topic in Register(m, reqs) <==> topic in m || FirstAccepted(reqs, topic).Some?
    ensures topic in Register(m, reqs) ==>
              Register(m, reqs)[topic] == if topic in m then m[topic] else FirstAccepted(reqs, topic).value
    decreases |reqs|
  {
    if reqs != [] {
      var q := reqs[0];
      var m1 := if q.driverResult >= 0 then Emplace(m, q.topic, q.handler) else m;
      RegisterKeepsFirst(m1, reqs[1..], topic);
    }
  }

  /** Inbound data for a topic reaches the handler of the first accepted
      subscription to it, once, and nothing when there was none. */
  lemma DataReachesFirstSubscriber(reqs: seq<SubscribeRequest>, topic: string, payload: string)
    ensures Dispatch(Register(map[], reqs), topic, payload)
            == match FirstAccepted(reqs, topic)
               case Some(h) => [Invoke(h, payload)]
               case None => []
  {
    RegisterKeepsFirst(map[], reqs, topic);
  }

  // ---------------------------------------------------------------------
  // The client object

  class MqttClient {
    var started: bool
    var subscriptions: map<string, Handler>
    var calls: seq<ClientCall>

    /** `_started` records whether the driver was started. */
    ghost predicate Valid()
      reads this
    {
      started <==> ClientStart in calls
    }

    /** `mqtt_client(config)`: initialises the driver client and registers
        for every event. */
    constructor ()
      ensures Valid()
      ensures !started && subscriptions == map[]
      ensures calls == [ClientInit, RegisterEvent]
    {
      started := false;
      subscriptions := map[];
      calls := [ClientInit, RegisterEvent];
    }

    method Start()
      requires Valid()
      modifies this
      ensures Valid() && started
      ensures subscriptions == old(subscriptions)
      ensures calls == old(calls) + [ClientStart]
    {
      calls := calls + [ClientStart];
      started := true;
    }

    /** `~mqtt_client`: unregisters, and stops the driver exactly when it
        was started. */
    method Destroy()
      requires Valid()
      modifies this
      ensures started == old(started) && subscriptions == old(subscriptions)
      ensures calls == old(calls) + [UnregisterEvent] + (if old(started) then [ClientStop] else [])
      ensures ClientStop in calls[|old(calls)|..] <==> ClientStart in old(calls)
    {
      calls := calls + [UnregisterEvent];
      if started {
        calls := calls + [ClientStop];
      }
      assert calls[|old(calls)|..] == [UnregisterEvent] + (if started then [ClientStop] else []);
    }

    /** `publish`: true exactly when the driver's result is not negative. */
    method Publish(topic: string, payload: string, qos: Qos, retain: bool, driverResult: int) returns (ok: bool)
      requires Valid()
      modifies this
      ensures Valid()
      ensures ok <==> driverResult >= 0
      ensures started == old(started) && subscriptions == old(subscriptions)
      ensures calls == old(calls) + [PublishMessage(topic, payload, QosLevel(qos), retain)]
    {
      calls := calls + [PublishMessage(topic, payload, QosLevel(qos), retain)];
      ok := driverResult >= 0;
    }

    /** `subscribe`: true exactly when the driver accepted the request; only
        then is the callback registered, and only if the topic had none. */
    method Subscribe(topic: string, qos: Qos, callback: Handler, driverResult: int) returns (ok: bool)
      requires Valid()
      modifies this
      ensures Valid()
      ensures ok <==> driverResult >= 0
      ensures subscriptions == if ok then Emplace(old(subscriptions), topic, callback) else old(subscriptions)
      ensures started == old(started)
      ensures calls == old(calls) + [SubscribeSingle(topic, QosLevel(qos))]
    {
      calls := calls + [SubscribeSingle(topic, QosLevel(qos))];
      if driverResult >= 0 {
        subscriptions := Emplace(subscriptions, topic, callback);
        return true;
      }
      return false;
    }

    /** `notify_data`: never changes the registry. */
    method NotifyData(topic: string, payload: string)
      requires Valid()
      modifies this
      ensures Valid()
      ensures started == old(started) && subscriptions == old(subscriptions)
      ensures calls == old(calls) + Dispatch(subscriptions, topic, payload)
    {
      if topic in subscriptions {
        calls := calls + [Invoke(subscriptions[topic], payload)];
      }
    }

    /** `mqtt_event_handler`: only DATA and ERROR make calls, and no event
        changes the registry or the started flag. */
    method EventHandler(e: MqttEvent)
      requires Valid() && WellFormed(e)
      modifies this
      ensures Valid()
      ensures started == old(started) && subscriptions == old(subscriptions)
      ensures calls == old(calls) + EventCalls(subscriptions, e)
    {
      match e {
        case Data(topic, topicLen, data, dataLen) =>
          NotifyData(topic[..topicLen], data[..dataLen]);
        case Error(t) =>
          var report := ReportError(t);
          if report.Some? {
            calls := calls + [LogError(report.value)];
          }
        case _ =>
      }
    }
  }

  /** A run of subscriptions on the client: what `Subscribe` does, one request
      at a time, is what `Register` describes. */
  method SubscribeAll(client: MqttClient, qos: Qos, reqs: seq<SubscribeRequest>)
    requires client.Valid()
    modifies client
    ensures client.Valid()
    ensures client.subscriptions == Register(old(client.subscriptions), reqs)
    ensures client.started == old(client.started)
  {
    var i := 0;
    while i < |reqs|
      invariant 0 <= i <= |reqs|
      invariant client.Valid()
      invariant client.started == old(client.started)
      invariant Register(old(client.subscriptions), reqs) == Register(client.subscriptions, reqs[i..])
    {
      var q := reqs[i];
      var _ := client.Subscribe(q.topic, qos, q.handler, q.driverResult);
      assert reqs[i..][1..] == reqs[i + 1..];
      i := i + 1;
    }
  }

  // ---------------------------------------------------------------------
  // The connected promise

  /** However many events reach it, the promise's value is set once, on the
      first: its handler does not look at the event. */
  lemma {:induction false} MqttPromiseSetOnce(events: seq<MqttEvent>)
    ensures CompleteAll(Pending, seq(|events|, _ => true)).setValueCalls == if events == [] then 0 else 1
  {
    CompleteAllSetsOnce(Pending, seq(|events|, _ => true));
    if events != [] {
      assert seq(|events|, _ => true)[0];
    }
  }

  class MqttConnectedPromise {
    var valueSet: bool
    var setValueCalls: nat

    ghost function State(): PromiseState
      reads this
    {
      PromiseState(valueSet, setValueCalls)
    }

    /** `mqtt_client::make_connected_promise`. */
    constructor ()
      ensures State() == Pending
    {
      valueSet := false;
      setValueCalls := 0;
    }

    /** `mqtt_connected_promise::mqtt_event_handler`, whatever the event. */
    method EventHandler(e: MqttEvent)
      modifies this
      ensures State() == Complete(old(State()))
    {
      if !valueSet {
        setValueCalls := setValueCalls + 1;
        valueSet := true;
      }
    }
  }
}
