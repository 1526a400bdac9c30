# ESP-IDF wrappers of esp-simarine-home-assistant, modelled in Dafny

The firmware bridges a Simarine battery monitor to Home Assistant. It does this through small C++ wrappers around ESP-IDF, and this project models the logic of those wrappers:

- **Wi-Fi station connector** (`wifi_connector`):
  - the bounded, NUL-terminated `copy_string` into the driver's fixed-size fields, and the station configuration;
  - the reconnection state machine: STA_START connects; a disconnect arms a one-shot 10-second reconnect timer unless the connector is stopping; the timer reconnects;
  - the destructor's ordered teardown;
  - the "connected" promise, which is completed by the first IP_EVENT_STA_GOT_IP.
- **Disconnect-reason names** (`wifi_disconnect_reason_string`): a total table from reason code to name, with the default `"unknown"`.
- **MQTT client** (`mqtt_client`):
  - mapping the publish and subscribe results to a bool;
  - the subscription registry and the routing of inbound DATA to the handler for that exact topic;
  - error reporting;
  - the start/stop bookkeeping;
  - the "connected" promise.
- **MQTT log forwarding** (`mqtt_logger`):
  - the suffix after the first `')'` of a formatted log line is published to `simarine_esp/log`. The arithmetic is in 32-bit `size_t`, so `npos + 2` wraps to 1;
  - the fixed Home Assistant device-discovery document.

Modules:

- **`EspTypes`**: `Option`, `esp_err_t`, and a counting helper.
- **`OneShot`**: the `_value_set` guard that both promises share.
- **`WifiUtils`**: the reason table.
- **`WifiConnection`**: `copy_string`, the station config, the connector and the Wi-Fi promise.
- **`Mqtt`**: the client, the registry and the MQTT promise.
- **`MqttLogging`**: the logger.

Objects the source updates in place are classes, and their methods are proved against pure step functions. Every driver call that the connector and the MQTT client make is recorded as an entry appended to an effect log (`Effect`, `ClientCall`). The exceptions are the promises' event registrations and the log calls; of the log calls, only `report_error`'s message is recorded. Where the code looks at what a driver call returned, that value is a parameter of the method or step:

- `timerResult` for `esp_timer_start_once`;
- `driverResult` for publish/subscribe;
- `publishResult` and `consoleResult` for the logger.

The reconnect timer's active state is kept beside the connector's fields as `timerArmed`, which is what `esp_timer_is_active` would answer. It is a field that is read, not a log entry.

Two behaviours of the code are worth pointing out:

- **First subscription wins.** A second `subscribe` to a topic keeps the first accepted handler, because `emplace` does not replace an existing entry (main/mqtt_client.cpp:102; `Mqtt.RegisterKeepsFirst`).
- **The timer can fire during teardown.** The comment in `on_station_disconnected` (main/wifi_connector.cpp:127-129) says a stopping connector should not try to reconnect. `reconnect_timer_handler` (main/wifi_connector.cpp:183-186) has no check of `_stopping`, though. A timer armed before the destructor began can fire between `esp_wifi_stop` and `delete_reconnect_timer`, and a connect is then attempted after the radio was stopped (`WifiConnection.TimerCanFireDuringTeardown`). Disconnects during teardown are suppressed, as that comment intends (`WifiConnection.StoppingIsFinal`). Once the destructor completes, nothing more happens (`WifiConnection.TeardownIsQuiescent`).

## Model

| member | source | states |
|---|---|---|
| WifiUtils.ReasonString | main/wifi_utils.cpp:6-131 | a code without a case of its own gets the default name "unknown" |
| WifiUtils.KeyRecoversReason | main/wifi_utils.cpp:6-127 | every listed reason code has a name of its own in the table, from which the reason can be recovered |
| WifiUtils.ListedNamesDistinct | main/wifi_utils.cpp:8-127 | distinct listed reason codes map to distinct names |
| WifiUtils.ListedNameIsNotUnknown | main/wifi_utils.cpp:8-130 | no listed reason code is named "unknown" |
| WifiUtils.UnknownExactlyWhenUnlisted | main/wifi_utils.cpp:6-131 | the name is "unknown" exactly when the code has no case in the switch; the function is total |
| OneShot.Complete | main/wifi_connector.cpp:68-74 | the guarded `set_value` completes a consistent promise, and leaves one that is already complete untouched |
| OneShot.CompleteAllSetsOnce | main/wifi_connector.cpp:64-75 | over any run of handler invocations, `set_value` is called at most once, and exactly once if some invocation met the condition |
| OneShot.CompleteAllAfterSet | main/mqtt_client.cpp:135-144 | once the value is set, further invocations change nothing |
| OneShot.CompleteAllOneMore | main/wifi_connector.cpp:64-75 | a run extended by one invocation is that invocation's guarded completion applied to the run |
| WifiConnection.CopiedField | main/wifi_connector.cpp:14-23 | the copy fails exactly when `|s| + 1` exceeds the field; otherwise the field holds `s`, then a NUL, then its old later bytes |
| WifiConnection.CopyString | main/wifi_connector.cpp:14-23 | aborts exactly when `N < size + 1`, leaving the array alone; otherwise the array becomes `CopiedField` of its old contents |
| WifiConnection.CString | main/wifi_connector.cpp:21-22 | the C string of a field is its longest NUL-free prefix, ended by a NUL or by the field's end |
| WifiConnection.CStringOfCopiedField | main/wifi_connector.cpp:21-22 | a copied NUL-free string reads back from the field as itself |
| WifiConnection.CopiedIntoZeros | main/wifi_connector.cpp:27-28 | copying into a zeroed field gives the string padded with zeros |
| WifiConnection.CopyIntoZeroedField | main/wifi_connector.cpp:27-29 | copying into a zero-initialised field of `n` bytes fails exactly when `|s| >= n`, and otherwise leaves the zero-padded string |
| WifiConnection.CreateStaConfig | main/wifi_connector.cpp:25-36 | succeeds exactly when ssid < 32 and password < 64 bytes; ssid and password zero-padded and NUL-terminated in all-zero fields, auth threshold WPA2-PSK, SAE PWE both, SAE H2E identifier empty |
| WifiConnection.StaConfigHoldsCredentials | main/wifi_connector.cpp:25-36 | the config's ssid and password read back as the inputs, and the identifier as the empty string |
| WifiConnection.ConnectWifiStep | main/wifi_connector.cpp:38-44 | appends exactly one connect attempt; `stopping` and the timer are unchanged, whatever the driver answers |
| WifiConnection.DisconnectStep | main/wifi_connector.cpp:126-146 | while stopping nothing changes; otherwise exactly one timer start for 10,000,000 µs is appended, and the timer is armed iff it was already or the start succeeded; `stopping` never changes |
| WifiConnection.OnWifiEvent | main/wifi_connector.cpp:166-181 | no event changes `stopping` or disarms the timer; each event appends at most one driver call; STA_START is the connect step and leaves the timer alone; events other than STA_START and STA_DISCONNECTED change nothing |
| WifiConnection.OnReconnectTimer | main/wifi_connector.cpp:183-186 | the expired one-shot timer is no longer armed, one connect attempt is appended, and `stopping` is not looked at or changed |
| WifiConnection.BeginTeardown | main/wifi_connector.cpp:100-105 | `stopping` is set, and then the radio stop and deinit are appended; the timer is untouched |
| WifiConnection.DeleteTimer | main/wifi_connector.cpp:159-164 | the timer ends disarmed and deleted, the delete being the last call; a timer stop is among the appended calls iff the timer was active |
| WifiConnection.FinishTeardown | main/wifi_connector.cpp:107-113 | the rest of the destructor leaves the timer disarmed and `stopping` as it was; it appends neither a connect attempt nor a radio stop |
| WifiConnection.DisconnectArmsTimer | main/wifi_connector.cpp:126-146 | a disconnect while stopping is a no-op; otherwise it starts the timer for 10,000,000 µs; the timer is armed if it was already armed or the start succeeded; the reason code makes no difference |
| WifiConnection.DeliverConnectAttempts | main/wifi_connector.cpp:166-181 | an event adds one connect attempt if it is STA_START, and none otherwise |
| WifiConnection.FinishConnectAttempts | main/wifi_connector.cpp:107-113 | the end of the destructor attempts no connect |
| WifiConnection.StepConnectAttempts | main/wifi_connector.cpp:166-186 | every step only appends to the log; STA_START and a timer firing each add exactly one connect attempt, and nothing else adds one |
| WifiConnection.ConnectAttemptsMatchTriggers | main/wifi_connector.cpp:183-186 | over any run, connect attempts equal STA_START events plus timer firings: no retry counter, no backoff |
| WifiConnection.Teardown | main/wifi_connector.cpp:100-114 | the destructor sets `stopping`; it stops and deinitialises the radio, stops the timer only if it is active, then deletes it, unregisters and destroys the netif, in that order |
| WifiConnection.ConstructedInv | main/wifi_connector.cpp:80-98 | a freshly constructed connector satisfies the connector invariant |
| WifiConnection.StepKeepsInv | main/wifi_connector.cpp:100-146 | each step keeps the invariant: every timer start uses the retry interval; `stopping` is set once the radio is stopped; no timer start follows the radio stop |
| WifiConnection.RunKeepsInv | main/wifi_connector.cpp:100-146 | the invariant holds after any run of starts, events, timer firings and destructor steps |
| WifiConnection.StoppingIsFinal | main/wifi_connector.cpp:126-132 | once `stopping` is set it stays set, the log only grows, and no later step starts the timer |
| WifiConnection.TeardownIsQuiescent | main/wifi_connector.cpp:100-164 | after the destructor, no timer is armed; the disconnects and other events still delivered (anything but STA_START) change nothing |
| WifiConnection.TimerCanFireDuringTeardown | main/wifi_connector.cpp:183-186 | a timer armed before teardown can fire after `esp_wifi_stop` and cause a connect attempt, since the handler does not check `_stopping` |
| WifiConnection.WifiConnector.constructor | main/wifi_connector.cpp:80-98 | creates the netif, registers for every Wi-Fi event, creates the timer, initialises the driver, sets station mode and the config; not stopping, timer not armed |
| WifiConnection.WifiConnector.FromCredentials | main/wifi_connector.cpp:77-78 | builds the station config from ssid and password, then constructs; fails exactly when a credential does not fit |
| WifiConnection.WifiConnector.CreateTimer | main/wifi_connector.cpp:148-157 | appends the timer creation and changes nothing else |
| WifiConnection.WifiConnector.Start | main/wifi_connector.cpp:120-124 | starts the driver |
| WifiConnection.WifiConnector.ConnectWifi | main/wifi_connector.cpp:38-44 | one connect attempt, whose result is ignored |
| WifiConnection.WifiConnector.OnStationDisconnected | main/wifi_connector.cpp:126-146 | the state becomes the disconnect step of the old state |
| WifiConnection.WifiConnector.EventHandler | main/wifi_connector.cpp:166-181 | the state becomes the event step of the old state |
| WifiConnection.WifiConnector.ReconnectTimerHandler | main/wifi_connector.cpp:183-186 | the timer is no longer active, and one connect attempt is made |
| WifiConnection.WifiConnector.DeleteReconnectTimer | main/wifi_connector.cpp:159-164 | stops the timer only if it is active, then deletes it |
| WifiConnection.WifiConnector.Destroy | main/wifi_connector.cpp:100-114 | the state becomes `Teardown` of the old state, which is the two destructor steps in order |
| WifiConnection.WifiPromiseSetOnce | main/wifi_connector.cpp:64-75 | over any run of events, `set_value` is called at most once, and the promise is ready exactly when an IP_EVENT_STA_GOT_IP was among them |
| WifiConnection.AfterOneMoreEvent | main/wifi_connector.cpp:64-75 | one more event completes the promise if it is IP_EVENT_STA_GOT_IP, and otherwise changes nothing |
| WifiConnection.WifiConnectedPromise.constructor | main/wifi_connector.cpp:116-118 | a new promise is pending |
| WifiConnection.WifiConnectedPromise.EventHandler | main/wifi_connector.cpp:64-75 | completes the promise only on IP_EVENT_STA_GOT_IP |
| Mqtt.QosLevel | main/mqtt_client.hpp:17-21 | the QoS reaches the driver as 0, 1 or 2 |
| Mqtt.QosLevelInjective | main/mqtt_client.hpp:17-21 | distinct QoS values give distinct levels |
| Mqtt.ReportError | main/mqtt_client.cpp:47-53 | logs a report exactly for TCP-transport and connection-refused errors, and the right one for each |
| Mqtt.Emplace | main/mqtt_client.cpp:102 | adds the key; an existing key keeps its value, a new key gets the given value, other entries are untouched |
| Mqtt.Dispatch | main/mqtt_client.cpp:114-120 | invokes the handler under exactly `topic`, once, with the payload, and nothing when the topic is unregistered |
| Mqtt.EventCalls | main/mqtt_client.cpp:57-87 | DATA dispatches the topic and payload cut to `topic_len` and `data_len`; ERROR makes exactly one `LogError` call, with `report_error`'s report, when there is one, and no call otherwise; every other event makes no call |
| Mqtt.RegisterKeepsFirst | main/mqtt_client.cpp:96-108 | after any run of subscriptions, a topic is registered iff it was before or some accepted request named it; its handler is the one it had, or else the first accepted |
| Mqtt.DataReachesFirstSubscriber | main/mqtt_client.cpp:96-120 | data for a topic invokes the handler of the first accepted subscription to it, once, or nothing |
| Mqtt.MqttClient.constructor | main/mqtt_client.cpp:23-29 | initialises the client and registers for every event; not started, no subscriptions |
| Mqtt.MqttClient.Start | main/mqtt_client.cpp:40-43 | starts the driver and records `_started` |
| Mqtt.MqttClient.Destroy | main/mqtt_client.cpp:31-38 | unregisters, and calls the driver stop exactly when `start` had been called |
| Mqtt.MqttClient.Publish | main/mqtt_client.cpp:89-94 | publishes with the QoS level and retain flag; true iff the driver result is ≥ 0; registry unchanged |
| Mqtt.MqttClient.Subscribe | main/mqtt_client.cpp:96-108 | true iff the driver result is ≥ 0; only then is the callback emplaced, and otherwise the registry is unchanged |
| Mqtt.MqttClient.NotifyData | main/mqtt_client.cpp:114-120 | makes the calls `Dispatch` describes and never changes the registry |
| Mqtt.MqttClient.EventHandler | main/mqtt_client.cpp:57-87 | makes the calls `EventCalls` describes; no event changes the registry or the started flag |
| Mqtt.Register | main/mqtt_client.cpp:96-108 | the registry after a run of subscriptions keeps every topic already registered, with its handler: no subscription removes or replaces an entry |
| Mqtt.SubscribeAll | main/mqtt_client.cpp:96-108 | links the `subscribe` method to `Register`: calling `Subscribe` for a run of requests in turn leaves the registry that `Register` describes (the loop is the sequence of calls, not a loop of the source) |
| Mqtt.MqttPromiseSetOnce | main/mqtt_client.cpp:135-144 | the handler ignores the event id; `set_value` is called once if any event arrives and never otherwise |
| Mqtt.MqttConnectedPromise.constructor | main/mqtt_client.cpp:110-126 | a new promise is pending |
| Mqtt.MqttConnectedPromise.EventHandler | main/mqtt_client.cpp:135-144 | completes the promise whatever the event |
| MqttLogging.SizeAdd | main/mqtt_logger.cpp:16 | `size_t` addition wraps around modulo 2^32 |
| MqttLogging.LogPayload | main/mqtt_logger.cpp:15-18 | a payload is a proper non-empty suffix of the line; when the line holds a `')'`, the payload starts two characters after the first one |
| MqttLogging.Find | main/mqtt_logger.cpp:16 | the index of the first occurrence, and `npos` exactly when there is none |
| MqttLogging.PayloadAfterFirstParen | main/mqtt_logger.cpp:15-18 | with the first `')'` at p, the payload is `data[p+2..]` when p + 2 < size, and nothing otherwise; later `')'` are irrelevant |
| MqttLogging.PayloadWithoutParen | main/mqtt_logger.cpp:16-18 | with no `')'`, `npos + 2` wraps to 1: the line minus its first character when it has at least two, and nothing otherwise |
| MqttLogging.EspLogLinePayload | main/mqtt_logger.cpp:15-18 | an ESP-IDF line `"<level> (<time>) <message>"` publishes exactly the message |
| MqttLogging.LogPublication | main/mqtt_logger.cpp:12-20 | nothing is published when the formatted length is ≤ 0, and what is published is a proper non-empty suffix of the line |
| MqttLogging.DiscoveryNamesLogTopic | main/mqtt_logger.cpp:17-30 | the state topic written in the discovery document's literal is the topic that `log` publishes to |
| MqttLogging.DiscoveryNamesLogQos | main/mqtt_logger.cpp:18-30 | the `qos` written in the discovery document's literal is the level that `log` publishes with |
| MqttLogging.MqttLogger.constructor | main/mqtt_logger.cpp:10 | the logger holds the given client |
| MqttLogging.MqttLogger.Log | main/mqtt_logger.cpp:12-22 | publishes `LogPublication` of the line to `simarine_esp/log`, at-least-once, not retained, if there is one; always returns the console result |
| MqttLogging.MqttLogger.SendDeviceDiscovery | main/mqtt_logger.cpp:24-36 | publishes the fixed document to `homeassistant/device/esp_log/config`, at-least-once, not retained |

## Left out

- Calls wrapped in `ESP_ERROR_CHECK` (register, init, set mode and config, start, stop, deinit, timer create/stop/delete, unregister, MQTT start/stop) are assumed to succeed, since a failure aborts the process.
- `CopyString` and `CreateStaConfig`: an abort is modelled as a reported failure (`aborted`, or `None`) rather than a process termination, and the error log line is left out.
- ESP-IDF's own behaviour is not modelled. This covers when events are delivered, whether `esp_timer_start_once` on an already active timer fails (it is a parameter), what `esp_wifi_connect` returns (it is only logged), and the netif and NVS.
- Concurrency is left out: `std::atomic`, `std::mutex` and the blocking `wait()` of both promises. Handlers are atomic steps. `OneShot.Ready` only says when a waiter would be released, and `wait()` is not modelled. The destructor is split into two steps only so that handlers can run between them.
- Register/unregister pairing is left out. Both promise classes register for one event and unregister a different one. The model does not log these registrations and does not claim that they match.
- The MQTT constructor passes the moved-from `config` to the driver. This is a move-semantics detail, and the model records only the init call.
- `create_mqtt_user_config` is left out, as it only assigns fields.
- `MqttLogging.LogPayload`, `MqttLogging.LogPublication`, `Mqtt.EventCalls`, `Mqtt.Dispatch`: one `string` character stands for one byte. The source counts bytes: `find`, `pos + 2`, `substr`, `topic_len`, `data_len` and the 256-byte buffer. For UTF-8 text with multi-byte characters, the source cuts at a byte offset, possibly inside a character, and the buffer holds fewer characters than 255. The model does not capture either.
- `vsprintf` and `vprintf` formatting are left out, together with the 256-byte buffer overflow and the `va_list` reuse. The formatted line is an input of at most 255 characters, along with both return values.
- `g_logger`, `mqtt_log`, `setup_mqtt_logger` and `send_mqtt_logger_device_discovery` are left out. They are the global singleton and the `esp_log_set_vprintf` hook (main/mqtt_logger.cpp:43-53). A log line emitted while publishing is not modelled either.
- Log message texts and `esp_err_to_name` are left out. `report_error` is modelled by which of its two messages it logs.
- Fields of `wifi_sta_config_t` other than those the code sets are not represented. They stay zero. The timer's creation arguments (name, dispatch method) are not represented either.
- `WifiUtils.ReasonString`: its own contract only says that an unlisted code gets "unknown". That the listed names differ from each other and from "unknown" is stated by the lemmas about it.
- The lowering property is left out: the rule that each name is its `WIFI_REASON_` identifier lower-cased. The identifiers are not part of the model, and the constructors only carry them in PascalCase. Proving it character by character for 60 literals is too slow for the solver.
- The reason codes' numeric values are ESP-IDF header constants and are not modelled.
- The field sizes 32, 64 and 32 are ESP-IDF's and come from its headers.
- `Mqtt.MqttClient.Publish` does not model the blocking that depends on the QoS level (main/mqtt_client.hpp:56-61). Publishing and subscribing are log entries.
- main/main.cpp is not part of this model: it is orchestration, a sensor loop and calls into an external library. The same goes for main/config.example.hpp.
