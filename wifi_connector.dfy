/** The Wi-Fi station connector: the bounded string copy into the driver's
    fixed-size config fields, the station configuration, the reconnection
    state machine driven by Wi-Fi events and the reconnect timer, and the
    "connected" promise completed by the first IP_EVENT_STA_GOT_IP.

    Every driver call the connector makes is recorded as an `Effect`
    appended to a log; what a driver call returns, where the code looks at
    it, is a parameter of the step. */
module WifiConnection {
  import opened EspTypes
  import opened WifiUtils
  import opened OneShot

  newtype uint8 = x: int | 0 <= x < 256

  // ---------------------------------------------------------------------
  // copy_string: a NUL-terminated copy into a fixed-size byte array

  /** The contents `copy_string` leaves in a field that held `buf` before,
      or `None` when the string and its terminator do not fit and the copy
      aborts. */
  function CopiedField(buf: seq<uint8>, s: seq<uint8>): (r: Option<seq<uint8>>)
    ensures r.Some? <==> |s| + 1 <= |buf|
    ensures r.Some? ==> |r.value| == |buf|
    ensures r.Some? ==> r.value[..|s|] == s && r.value[|s|] == 0
    ensures r.Some? ==> r.value[|s| + 1..] == buf[|s| + 1..]
  {
    if |buf| < |s| + 1 then None else Some(s + [0] + buf[|s| + 1..])
  }

  /** `copy_string(target, str)`: copies `s` into `target` and terminates it,
      or reports that it aborted (leaving `target` as it was) when
      `target.Length < |s| + 1`. */
  method CopyString(target: array<uint8>, s: seq<uint8>) returns (aborted: bool)
    modifies target
    ensures aborted <==> target.Length < |s| + 1
    ensures aborted ==> target[..] == old(target[..])
    ensures !aborted ==> target[..] == CopiedField(old(target[..]), s).value
  {
    if target.Length < |s| + 1 {
      return true;
    }
    var i := 0;
    while i < |s|
      invariant 0 <= i <= |s|
      invariant target[..i] == s[..i]
      invariant target[i..] == old(target[i..])
    {
      target[i] := s[i];
      i := i + 1;
    }
    target[|s|] := 0;
    assert target[..] == s + [0] + old(target[..])[|s| + 1..];
    aborted := false;
  }

  /** The C string a NUL-terminated field holds: its bytes before the first
      NUL, or all of them when there is none. */
  function CString(buf: seq<uint8>): (r: seq<uint8>)
    ensures |r| <= |buf| && r == buf[..|r|]
    ensures 0 !in r
    ensures |r| < |buf| ==> buf[|r|] == 0
  {
    if buf == [] || buf[0] == 0 then [] else [buf[0]] + CString(buf[1..])
  }

  /** Reading a copied field back as a C string yields the copied string,
      provided the string holds no NUL of its own. */
  lemma CStringOfCopiedField(buf: seq<uint8>, s: seq<uint8>)
    requires |s| + 1 <= |buf|
    requires 0 !in s
    ensures CString(CopiedField(buf, s).value) == s
  {
  }

  // ---------------------------------------------------------------------
  // The station configuration

  /** Capacities of `wifi_sta_config_t`'s string fields in ESP-IDF. */
  const SsidCapacity := 32
  const PasswordCapacity := 64
  const SaeH2eIdentifierCapacity := 32

  datatype AuthMode = AuthOpen | AuthWpa2Psk
  datatype SaePweMethod = SaePweUnspecified | SaePweBoth

  /** The fields of `wifi_sta_config_t` the connector sets; the rest stay
      zero. */
  datatype StaConfig = StaConfig(
    ssid: seq<uint8>,
    password: seq<uint8>,
    authThreshold: AuthMode,
    saePweH2e: SaePweMethod,
    saeH2eIdentifier: seq<uint8>)

  function Zeros(n: nat): (z: seq<uint8>)
    ensures |z| == n
    ensures forall i :: 0 <= i < n ==> z[i] == 0
  {
    seq(n, _ => 0)
  }

  /** `s` as it sits in a zero-initialised field of `n` bytes. */
  function Padded(s: seq<uint8>, n: nat): (f: seq<uint8>)
    requires |s| < n
    ensures |f| == n && f[..|s|] == s
    ensures forall i :: |s| <= i < n ==> f[i] == 0
  {
    s + Zeros(n - |s|)
  }

  /** The padded field is what the copy leaves in a zeroed field. */
  lemma CopiedIntoZeros(s: seq<uint8>, n: nat)
    requires |s| < n
    ensures CopiedField(Zeros(n), s) == Some(Padded(s, n))
  {
    var f := CopiedField(Zeros(n), s).value;
    assert forall i :: 0 <= i < n ==> f[i] == Padded(s, n)[i] by {
      forall i | 0 <= i < n ensures f[i] == Padded(s, n)[i] {
        if i < |s| {
          assert f[..|s|][i] == s[i];
        } else if i > |s| {
          assert f[|s| + 1..][i - |s| - 1] == Zeros(n)[|s| + 1..][i - |s| - 1];
        }
      }
    }
    assert f == Padded(s, n);
  }

  /** A field holding a padded string reads back as that string. */
  lemma CStringOfPadded(s: seq<uint8>, n: nat)
    requires |s| < n
    requires 0 !in s
    ensures CString(Padded(s, n)) == s
  {
    CopiedIntoZeros(s, n);
    CStringOfCopiedField(Zeros(n), s);
  }

  /** `copy_string` into a zero-initialised field of `n` bytes: the field's
      contents afterwards, or `None` when the copy aborts. */
  method CopyIntoZeroedField(n: nat, s: seq<uint8>) returns (field: Option<seq<uint8>>)
    ensures field.Some? <==> |s| < n
    ensures field.Some? ==> field.value == Padded(s, n)
  {
    var target := new uint8[n](_ => 0);
    assert target[..] == Zeros(n);
    var aborted := CopyString(target, s);
    if aborted {
      return None;
    }
    CopiedIntoZeros(s, n);
    return Some(target[..]);
  }

  /** `create_wifi_sta_config`: a zeroed config whose ssid and password
      hold the inputs NUL-terminated, with WPA2-PSK as the weakest accepted
      authentication, SAE PWE by hunting-and-pecking or hash-to-element,
      and an empty SAE H2E identifier.  `None` when either string does not
      fit its field, where the code aborts. */
  method CreateStaConfig(ssid: seq<uint8>, password: seq<uint8>) returns (r: Option<StaConfig>)
    ensures r.Some? <==> |ssid| < SsidCapacity && |password| < PasswordCapacity
    ensures r.Some? ==> r.value.ssid == Padded(ssid, SsidCapacity)
    ensures r.Some? ==> r.value.password == Padded(password, PasswordCapacity)
    ensures r.Some? ==> r.value.authThreshold == AuthWpa2Psk
    ensures r.Some? ==> r.value.saePweH2e == SaePweBoth
    ensures r.Some? ==> r.value.saeH2eIdentifier == Zeros(SaeH2eIdentifierCapacity)
  {
    var ssidField := CopyIntoZeroedField(SsidCapacity, ssid);
    if ssidField.None? {
      return None;
    }
    var passwordField := CopyIntoZeroedField(PasswordCapacity, password);
    if passwordField.None? {
      return None;
    }
    var identifierField := CopyIntoZeroedField(SaeH2eIdentifierCapacity, []);
    assert Padded([], SaeH2eIdentifierCapacity) == Zeros(SaeH2eIdentifierCapacity);
    r := Some(StaConfig(ssidField.value, passwordField.value, AuthWpa2Psk, SaePweBoth, identifierField.value));
  }

  /** The credentials read back from the built config are the inputs, and
      the identifier reads back as the empty string. */
  lemma StaConfigHoldsCredentials(ssid: seq<uint8>, password: seq<uint8>)
    requires |ssid| < SsidCapacity && |password| < PasswordCapacity
    requires 0 !in ssid && 0 !in password
    ensures CString(Padded(ssid, SsidCapacity)) == ssid
    ensures CString(Padded(password, PasswordCapacity)) == password
    ensures CString(Zeros(SaeH2eIdentifierCapacity)) == []
  {
    CStringOfPadded(ssid, SsidCapacity);
    CStringOfPadded(password, PasswordCapacity);
  }

  // ---------------------------------------------------------------------
  // The reconnection state machine

  /** `retry_interval`, and the timeout `esp_timer_start_once` receives
      after the conversion to microseconds. */
  const RetryIntervalSeconds := 10
  const RetryIntervalUs := RetryIntervalSeconds * 1_000_000

  datatype WifiEventId = StaStart | StaDisconnected(reason: WifiReason) | OtherWifiEvent(id: int)
  datatype IpEventId = StaGotIp | OtherIpEvent(id: int)

  /** An event as the default event loop delivers it: a base and an id. */
  datatype Event = WifiEvent(wifiId: WifiEventId) | IpEvent(ipId: IpEventId) | OtherBaseEvent

  /** The driver calls the connector makes, in the order it makes them. */
  datatype Effect =
    | CreateNetif
    | RegisterWifiHandler
    | TimerCreate
    | InitWifi
    | SetModeSta
    | SetStaConfig(config: StaConfig)
    | StartWifi
    | ConnectAttempt
    | TimerStartOnce(timeoutUs: int)
    | StopWifi
    | DeinitWifi
    | TimerStop
    | TimerDelete
    | UnregisterWifiHandler
    | DestroyNetif

  /** `stopping` is the connector's `_stopping`; `timerArmed` is what
      `esp_timer_is_active` reports for the reconnect timer. */
  datatype ConnectorState = ConnectorState(stopping: bool, timerArmed: bool, effects: seq<Effect>)

  /** The state the constructor leaves: the netif, the handler for every
      Wi-Fi event, the timer, the driver in station mode with `config`. */
  function Constructed(config: StaConfig): ConnectorState {
    ConnectorState(false, false,
      [CreateNetif, RegisterWifiHandler, TimerCreate, InitWifi, SetModeSta, SetStaConfig(config)])
  }

  /** `connect_wifi`: one connect attempt, whose failure is only logged. */
  function ConnectWifiStep(s: ConnectorState): (r: ConnectorState)
    ensures r.stopping == s.stopping && r.timerArmed == s.timerArmed
    ensures s.effects <= r.effects && r.effects[|s.effects|..] == [ConnectAttempt]
  {
    s.(effects := s.effects + [ConnectAttempt])
  }

  /** `on_station_disconnected`: nothing while stopping; otherwise the
      one-shot timer is started for the retry interval.  `timerResult` is
      what `esp_timer_start_once` returns; a failure is only logged, and a
      timer that was armed stays armed. */
  function DisconnectStep(s: ConnectorState, reason: WifiReason, timerResult: EspErr): (r: ConnectorState)
    ensures s.stopping ==> r == s
    ensures r.stopping == s.stopping && s.effects <= r.effects
    ensures !s.stopping ==> (r.timerArmed <==> s.timerArmed || timerResult.EspOk?)
    ensures !s.stopping ==> r.effects[|s.effects|..] == [TimerStartOnce(RetryIntervalUs)]
  {
    if s.stopping then s
    else s.(timerArmed := s.timerArmed || timerResult.EspOk?,
            effects := s.effects + [TimerStartOnce(RetryIntervalUs)])
  }

  /** `wifi_connector::event_handler`: STA_START connects, STA_DISCONNECTED
      takes the disconnect path, everything else is ignored. */
  function OnWifiEvent(s: ConnectorState, e: Event, timerResult: EspErr): (r: ConnectorState)
    ensures r.stopping == s.stopping
    ensures s.effects <= r.effects && |r.effects| <= |s.effects| + 1
    ensures s.timerArmed ==> r.timerArmed
    ensures e == WifiEvent(StaStart) ==> r == ConnectWifiStep(s)
    ensures !(e.WifiEvent? && (e.wifiId.StaStart? || e.wifiId.StaDisconnected?)) ==> r == s
  {
    match e
    case WifiEvent(StaStart) => ConnectWifiStep(s)
    case WifiEvent(StaDisconnected(reason)) => DisconnectStep(s, reason, timerResult)
    case _ => s
  }

  /** `reconnect_timer_handler`: the one-shot timer has expired and is no
      longer active; one connect attempt follows.  It does not look at
      `_stopping`. */
  function OnReconnectTimer(s: ConnectorState): (r: ConnectorState)
    ensures !r.timerArmed && r.stopping == s.stopping
    ensures s.effects <= r.effects && r.effects[|s.effects|..] == [ConnectAttempt]
  {
    ConnectWifiStep(s.(timerArmed := false))
  }

  /** `start`. */
  function StartConnector(s: ConnectorState): ConnectorState {
    s.(effects := s.effects + [StartWifi])
  }

  /** The destructor up to and including `esp_wifi_deinit`: `_stopping` is
      set before the radio is stopped. */
  function BeginTeardown(s: ConnectorState): (r: ConnectorState)
    ensures r.stopping && r.timerArmed == s.timerArmed
    ensures s.effects <= r.effects && r.effects[|s.effects|..] == [StopWifi, DeinitWifi]
  {
    s.(stopping := true, effects := s.effects + [StopWifi, DeinitWifi])
  }

  /** `delete_reconnect_timer`: stop the timer if it is active, then delete it. */
  function DeleteTimer(s: ConnectorState): (r: ConnectorState)
    ensures !r.timerArmed && r.stopping == s.stopping
    ensures s.effects <= r.effects && |r.effects| > |s.effects| && r.effects[|r.effects| - 1] == TimerDelete
    ensures TimerStop in r.effects[|s.effects|..] <==> s.timerArmed
  {
    var added := (if s.timerArmed then [TimerStop] else []) + [TimerDelete];
    var r := s.(timerArmed := false, effects := s.effects + added);
    assert r.effects[|s.effects|..] == added;
    r
  }

  /** The rest of the destructor. */
  function FinishTeardown(s: ConnectorState): (r: ConnectorState)
    ensures !r.timerArmed && r.stopping == s.stopping
    ensures s.effects <= r.effects
    ensures ConnectAttempt !in r.effects[|s.effects|..] && StopWifi !in r.effects[|s.effects|..]
  {
    var t := DeleteTimer(s);
    t.(effects := t.effects + [UnregisterWifiHandler, DestroyNetif])
  }

  /** The whole destructor. */
  function Teardown(s: ConnectorState): (r: ConnectorState)
    ensures r.stopping && !r.timerArmed
    ensures r.effects == s.effects + [StopWifi, DeinitWifi]
                         + (if s.timerArmed then [TimerStop] else [])
                         + [TimerDelete, UnregisterWifiHandler, DestroyNetif]
  {
    FinishTeardown(BeginTeardown(s))
  }

  /** What can happen to a connector: the application calls `start` or
      destroys it, the event loop runs the event handler, the timer task runs
      the timer handler.  The destructor is split where other handlers can
      still run: after the radio is stopped and before the timer is deleted. */
  datatype Input =
    | StartCalled
    | Deliver(event: Event, timerResult: EspErr)
    | TimerFired
    | BeginDestroy
    | FinishDestroy

  function Step(s: ConnectorState, i: Input): ConnectorState {
    match i
    case StartCalled => StartConnector(s)
    case Deliver(e, t) => OnWifiEvent(s, e, t)
    case TimerFired => OnReconnectTimer(s)
    case BeginDestroy => BeginTeardown(s)
    case FinishDestroy => FinishTeardown(s)
  }

  function Run(s: ConnectorState, inputs: seq<Input>): ConnectorState
    decreases |inputs|
  {
    if inputs == [] then s else Run(Step(s, inputs[0]), inputs[1..])
  }

  /** The inputs that lead to a connect attempt. */
  predicate TriggersConnect(i: Input) {
    i == TimerFired || (i.Deliver? && i.event == WifiEvent(StaStart))
  }

  function Triggers(inputs: seq<Input>): (n: nat)
    ensures n <= |inputs|
  {
    if inputs == [] then 0
    else (if TriggersConnect(inputs[0]) then 1 else 0) + Triggers(inputs[1..])
  }

  /** Appending `added` to the log adds its connect attempts to the count. */
  lemma AppendConnects(s: ConnectorState, r: ConnectorState, added: seq<Effect>)
    requires r.effects == s.effects + added
    ensures s.effects <= r.effects
    ensures Count(r.effects, ConnectAttempt) == Count(s.effects, ConnectAttempt) + Count(added, ConnectAttempt)
  {
    CountAppend(s.effects, added, ConnectAttempt);
  }

  lemma DeliverConnectAttempts(s: ConnectorState, e: Event, t: EspErr)
    ensures s.effects <= OnWifiEvent(s, e, t).effects
    ensures Count(OnWifiEvent(s, e, t).effects, ConnectAttempt)
            == Count(s.effects, ConnectAttempt) + (if e == WifiEvent(StaStart) then 1 else 0)
  {
    var r := OnWifiEvent(s, e, t);
    if e == WifiEvent(StaStart) {
      AppendConnects(s, r, [ConnectAttempt]);
      assert Count([ConnectAttempt], ConnectAttempt) == 1;
    } else if e.WifiEvent? && e.wifiId.StaDisconnected? && !s.stopping {
      AppendConnects(s, r, [TimerStartOnce(RetryIntervalUs)]);
    }
  }

  lemma FinishConnectAttempts(s: ConnectorState)
    ensures s.effects <= FinishTeardown(s).effects
    ensures Count(FinishTeardown(s).effects, ConnectAttempt) == Count(s.effects, ConnectAttempt)
  {
    var added := (if s.timerArmed then [TimerStop] else []) + [TimerDelete, UnregisterWifiHandler, DestroyNetif];
    assert ConnectAttempt !in added;
    AppendConnects(s, FinishTeardown(s), added);
  }

  lemma OtherStepsConnectAttempts(s: ConnectorState)
    ensures s.effects <= StartConnector(s).effects && s.effects <= BeginTeardown(s).effects
    ensures s.effects <= OnReconnectTimer(s).effects
    ensures Count(StartConnector(s).effects, ConnectAttempt) == Count(s.effects, ConnectAttempt)
    ensures Count(BeginTeardown(s).effects, ConnectAttempt) == Count(s.effects, ConnectAttempt)
    ensures Count(OnReconnectTimer(s).effects, ConnectAttempt) == Count(s.effects, ConnectAttempt) + 1
  {
    AppendConnects(s, StartConnector(s), [StartWifi]);
    AppendConnects(s, BeginTeardown(s), [StopWifi, DeinitWifi]);
    AppendConnects(s, OnReconnectTimer(s), [ConnectAttempt]);
    assert Count([ConnectAttempt], ConnectAttempt) == 1;
  }

  /** Each step appends to the log and never removes from it; the ones that
      connect append exactly one connect attempt, the others none. */
  lemma StepConnectAttempts(s: ConnectorState, i: Input)
    ensures s.effects <= Step(s, i).effects
    ensures Count(Step(s, i).effects, ConnectAttempt)
            == Count(s.effects, ConnectAttempt) + (if TriggersConnect(i) then 1 else 0)
  {
    OtherStepsConnectAttempts(s);
    FinishConnectAttempts(s);
    if i.Deliver? {
      DeliverConnectAttempts(s, i.event, i.timerResult);
    }
  }

  /** Connect attempts are exactly the STA_START events and the timer
      firings: there is no retry counter and no backoff, so a connector keeps
      retrying for as long as it keeps being disconnected. */
  lemma {:induction false} ConnectAttemptsMatchTriggers(s: ConnectorState, inputs: seq<Input>)
    ensures s.effects <= Run(s, inputs).effects
    ensures Count(Run(s, inputs).effects, ConnectAttempt)
            == Count(s.effects, ConnectAttempt) + Triggers(inputs)
    decreases |inputs|
  {
    if inputs != [] {
      StepConnectAttempts(s, inputs[0]);
      ConnectAttemptsMatchTriggers(Step(s, inputs[0]), inputs[1..]);
    }
  }

  /** A disconnect while stopping is a no-op; otherwise it asks for the timer
      to be started for the retry interval, whatever the reason. */
  lemma DisconnectArmsTimer(s: ConnectorState, reason: WifiReason, other: WifiReason, t: EspErr)
    ensures s.stopping ==> Step(s, Deliver(WifiEvent(StaDisconnected(reason)), t)) == s
    ensures !s.stopping ==>
      Step(s, Deliver(WifiEvent(StaDisconnected(reason)), t)).effects
        == s.effects + [TimerStartOnce(RetryIntervalUs)]
    ensures !s.stopping ==>
      (Step(s, Deliver(WifiEvent(StaDisconnected(reason)), t)).timerArmed <==> s.timerArmed || t == EspOk)
    ensures Step(s, Deliver(WifiEvent(StaDisconnected(reason)), t))
            == Step(s, Deliver(WifiEvent(StaDisconnected(other)), t))
  {
  }

  /** The invariant of every connector: every timer start uses the retry
      interval, and none comes after the radio was stopped, which only
      happens once `stopping` is set. */
  predicate Inv(s: ConnectorState) {
    && (forall k :: 0 <= k < |s.effects| && s.effects[k].TimerStartOnce? ==>
          s.effects[k].timeoutUs == RetryIntervalUs)
    && (StopWifi in s.effects ==> s.stopping)
    && (forall j, k :: 0 <= j < k < |s.effects| && s.effects[j] == StopWifi ==>
          !s.effects[k].TimerStartOnce?)
  }

  lemma ConstructedInv(config: StaConfig)
    ensures Inv(Constructed(config))
  {
  }

  /** Appending a suffix that starts no timer keeps the invariant, provided
      the stopping flag is consistent with the new log. */
  lemma AppendKeepsInv(s: ConnectorState, r: ConnectorState, added: seq<Effect>)
    requires Inv(s)
    requires r.effects == s.effects + added
    requires s.stopping ==> r.stopping
    requires forall k :: 0 <= k < |added| ==> !added[k].TimerStartOnce?
    requires StopWifi in added ==> r.stopping
    ensures Inv(r)
  {
    forall j, k | 0 <= j < k < |r.effects| && r.effects[j] == StopWifi
      ensures !r.effects[k].TimerStartOnce?
    {
      if k >= |s.effects| {
        assert r.effects[k] == added[k - |s.effects|];
      }
    }
    if StopWifi in r.effects {
      var j :| 0 <= j < |r.effects| && r.effects[j] == StopWifi;
      if j < |s.effects| {
        assert StopWifi in s.effects;
      } else {
        assert added[j - |s.effects|] == StopWifi;
      }
    }
  }

  lemma DeliverKeepsInv(s: ConnectorState, e: Event, t: EspErr)
    requires Inv(s)
    ensures Inv(OnWifiEvent(s, e, t))
  {
    var r := OnWifiEvent(s, e, t);
    if e.WifiEvent? && e.wifiId.StaStart? {
      AppendKeepsInv(s, r, [ConnectAttempt]);
    } else if e.WifiEvent? && e.wifiId.StaDisconnected? && !s.stopping {
      assert StopWifi !in s.effects;
      assert r.effects == s.effects + [TimerStartOnce(RetryIntervalUs)];
      assert StopWifi !in r.effects;
    }
  }

  lemma FinishKeepsInv(s: ConnectorState)
    requires Inv(s)
    ensures Inv(FinishTeardown(s))
  {
    AppendKeepsInv(s, FinishTeardown(s), (if s.timerArmed then [TimerStop] else [])
                                         + [TimerDelete, UnregisterWifiHandler, DestroyNetif]);
  }

  lemma StepKeepsInv(s: ConnectorState, i: Input)
    requires Inv(s)
    ensures Inv(Step(s, i))
  {
    match i {
      case StartCalled =>
        AppendKeepsInv(s, StartConnector(s), [StartWifi]);
      case Deliver(e, t) =>
        DeliverKeepsInv(s, e, t);
      case TimerFired =>
        AppendKeepsInv(s, OnReconnectTimer(s), [ConnectAttempt]);
      case BeginDestroy =>
        AppendKeepsInv(s, BeginTeardown(s), [StopWifi, DeinitWifi]);
      case FinishDestroy =>
        FinishKeepsInv(s);
    }
  }

  /** Whatever happens, the invariant holds: no timer is ever started for
      anything but the retry interval, and none after the radio is stopped. */
  lemma {:induction false} RunKeepsInv(s: ConnectorState, inputs: seq<Input>)
    requires Inv(s)
    ensures Inv(Run(s, inputs))
    decreases |inputs|
  {
    if inputs != [] {
      StepKeepsInv(s, inputs[0]);
      RunKeepsInv(Step(s, inputs[0]), inputs[1..]);
    }
  }

  /** `stopping` is never cleared, and once it is set no step starts the
      timer. */
  lemma {:induction false} StoppingIsFinal(s: ConnectorState, inputs: seq<Input>)
    requires s.stopping
    ensures Run(s, inputs).stopping
    ensures s.effects <= Run(s, inputs).effects
    ensures forall k :: |s.effects| <= k < |Run(s, inputs).effects| ==>
              !Run(s, inputs).effects[k].TimerStartOnce?
    decreases |inputs|
  {
    if inputs != [] {
      var s1 := Step(s, inputs[0]);
      assert s1.stopping && s.effects <= s1.effects;
      assert forall k :: |s.effects| <= k < |s1.effects| ==> !s1.effects[k].TimerStartOnce?;
      StoppingIsFinal(s1, inputs[1..]);
    }
  }

  /** The timer only fires while it is armed: the traces the driver can
      produce. */
  predicate Feasible(s: ConnectorState, inputs: seq<Input>)
    decreases |inputs|
  {
    inputs == [] ||
    ((inputs[0] == TimerFired ==> s.timerArmed) && Feasible(Step(s, inputs[0]), inputs[1..]))
  }

  /** After the destructor has run, the disconnect events the stopped radio
      still delivers, and anything else but STA_START, change nothing: no
      timer is armed, so none can fire, and no connect is attempted. */
  lemma {:induction false} TeardownIsQuiescent(s: ConnectorState, inputs: seq<Input>)
    requires forall k :: 0 <= k < |inputs| ==>
               inputs[k].Deliver? && inputs[k].event != WifiEvent(StaStart)
    ensures Feasible(Teardown(s), inputs)
    ensures Run(Teardown(s), inputs) == Teardown(s)
    decreases |inputs|
  {
    if inputs != [] {
      var t := Teardown(s);
      assert Step(t, inputs[0]) == t;
      TeardownIsQuiescent(s, inputs[1..]);
    }
  }

  /** The timer handler does not look at `stopping`: a timer armed before the
      destructor began can still fire between `esp_wifi_stop` and
      `delete_reconnect_timer`, and the connector then attempts a connect
      after it has stopped the radio. */
  lemma TimerCanFireDuringTeardown(config: StaConfig)
    ensures var inputs := [StartCalled, Deliver(WifiEvent(StaDisconnected(UnlistedReason(0))), EspOk),
                           BeginDestroy, TimerFired];
            var r := Run(Constructed(config), inputs);
            && Feasible(Constructed(config), inputs)
            && r.stopping
            && r.effects[|r.effects| - 3] == StopWifi
            && r.effects[|r.effects| - 1] == ConnectAttempt
  {
  }

  // ---------------------------------------------------------------------
  // The connector object

  class WifiConnector {
    var stopping: bool
    /** What `esp_timer_is_active` reports for `_reconnect_timer_handle`. */
    var timerArmed: bool
    var effects: seq<Effect>

    ghost function State(): ConnectorState
      reads this
    {
      ConnectorState(stopping, timerArmed, effects)
    }

    /** `wifi_connector(wifi_sta_config_t)`. */
    constructor (config: StaConfig)
      ensures State() == Constructed(config)
    {
      stopping := false;
      timerArmed := false;
      effects := [CreateNetif, RegisterWifiHandler];
      new;
      CreateTimer();
      effects := effects + [InitWifi, SetModeSta, SetStaConfig(config)];
    }

    /** `wifi_connector(ssid, password)`: builds the station config first. */
    static method FromCredentials(ssid: seq<uint8>, password: seq<uint8>) returns (c: Option<WifiConnector>)
      ensures c.Some? <==> |ssid| < SsidCapacity && |password| < PasswordCapacity
      ensures c.Some? ==> fresh(c.value)
      ensures c.Some? ==> c.value.State() == Constructed(StaConfig(
                Padded(ssid, SsidCapacity), Padded(password, PasswordCapacity),
                AuthWpa2Psk, SaePweBoth, Zeros(SaeH2eIdentifierCapacity)))
    {
      var config := CreateStaConfig(ssid, password);
      if config.None? {
        return None;
      }
      var connector := new WifiConnector(config.value);
      c := Some(connector);
    }

    method CreateTimer()
      modifies this
      ensures State() == old(State()).(effects := old(effects) + [TimerCreate])
    {
      effects := effects + [TimerCreate];
    }

    method Start()
      modifies this
      ensures State() == Step(old(State()), StartCalled)
    {
      effects := effects + [StartWifi];
    }

    method ConnectWifi()
      modifies this
      ensures State() == ConnectWifiStep(old(State()))
    {
      effects := effects + [ConnectAttempt];
    }

    method OnStationDisconnected(reason: WifiReason, timerResult: EspErr)
      modifies this
      ensures State() == DisconnectStep(old(State()), reason, timerResult)
    {
      if stopping {
        return;
      }
      effects := effects + [TimerStartOnce(RetryIntervalUs)];
      if timerResult.EspOk? {
        timerArmed := true;
      }
    }

    /** `event_handler`. */
    method EventHandler(e: Event, timerResult: EspErr)
      modifies this
      ensures State() == Step(old(State()), Deliver(e, timerResult))
    {
      if e == WifiEvent(StaStart) {
        ConnectWifi();
      } else if e.WifiEvent? && e.wifiId.StaDisconnected? {
        OnStationDisconnected(e.wifiId.reason, timerResult);
      }
    }

    /** `reconnect_timer_handler`. */
    method ReconnectTimerHandler()
      modifies this
      ensures State() == Step(old(State()), TimerFired)
    {
      timerArmed := false;
      ConnectWifi();
    }

    method DeleteReconnectTimer()
      modifies this
      ensures State() == DeleteTimer(old(State()))
    {
      if timerArmed {
        effects := effects + [TimerStop];
      }
      effects := effects + [TimerDelete];
      timerArmed := false;
    }

    /** `~wifi_connector`, run to completion. */
    method Destroy()
      modifies this
      ensures State() == Teardown(old(State()))
      ensures State() == Run(old(State()), [BeginDestroy, FinishDestroy])
    {
      stopping := true;
      effects := effects + [StopWifi, DeinitWifi];
      DeleteReconnectTimer();
      effects := effects + [UnregisterWifiHandler, DestroyNetif];
    }
  }

  // ---------------------------------------------------------------------
  // The connected promise

  /** Whether the promise's handler acts on an event. */
  predicate CompletesWifiPromise(e: Event) {
    e == IpEvent(StaGotIp)
  }

  /** The promise after a run of events. */
  function AfterEvents(p: PromiseState, events: seq<Event>): PromiseState {
    CompleteAll(p, seq(|events|, k requires 0 <= k < |events| => CompletesWifiPromise(events[k])))
  }

  /** However many GOT_IP events arrive, a fresh promise has its value set
      exactly once if any did and never otherwise; no other event can set
      it. */
  lemma WifiPromiseSetOnce(events: seq<Event>)
    ensures AfterEvents(Pending, events).setValueCalls <= 1
    ensures Ready(AfterEvents(Pending, events)) <==> IpEvent(StaGotIp) in events
  {
    var signals := seq(|events|, k requires 0 <= k < |events| => CompletesWifiPromise(events[k]));
    CompleteAllSetsOnce(Pending, signals);
    if IpEvent(StaGotIp) in events {
      var k :| 0 <= k < |events| && events[k] == IpEvent(StaGotIp);
      assert signals[k];
    }
  }

  /** One more event extends the run by one handler invocation. */
  lemma AfterOneMoreEvent(p: PromiseState, events: seq<Event>, e: Event)
    ensures AfterEvents(p, events + [e])
            == if CompletesWifiPromise(e) then Complete(AfterEvents(p, events)) else AfterEvents(p, events)
  {
    var signals := seq(|events|, k requires 0 <= k < |events| => CompletesWifiPromise(events[k]));
    var more := events + [e];
    assert seq(|more|, k requires 0 <= k < |more| => CompletesWifiPromise(more[k]))
           == signals + [CompletesWifiPromise(e)];
    CompleteAllOneMore(p, signals, CompletesWifiPromise(e));
  }

  class WifiConnectedPromise {
    var valueSet: bool
    var setValueCalls: nat

    ghost function State(): PromiseState
      reads this
    {
      PromiseState(valueSet, setValueCalls)
    }

    /** `wifi_connector::make_connected_promise`. */
    constructor ()
      ensures State() == Pending
    {
      valueSet := false;
      setValueCalls := 0;
    }

    /** `wifi_connected_promise::event_handler`. */
    method EventHandler(e: Event)
      modifies this
      ensures State() == if CompletesWifiPromise(e) then Complete(old(State())) else old(State())
    {
      if e.IpEvent? && e.ipId == StaGotIp {
        if !valueSet {
          setValueCalls := setValueCalls + 1;
          valueSet := true;
        }
      }
    }
  }
}
