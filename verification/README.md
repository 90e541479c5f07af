# RobotMqtt: a connectivity-gated MQTT command publisher, in Dafny

`iot::RobotMqtt` (robot_mqtt.cc) is the tracked base of a small robot. It exposes seven
remote commands. Each command publishes a fixed payload to a fixed MQTT topic, and only
while the broker session is live. Under the ESP-IDF calls the class is a small state machine
with three parts:

- **Link-readiness latch**. `wifi_event_handler` asks the Wi-Fi driver to connect on
  STA_START and on STA_DISCONNECTED. On GOT_IP it sets `WIFI_CONNECTED_BIT`. Nothing ever
  clears the bit, and the waiter does not clear it on exit.
- **Session supervisor**. The setup task blocks until the bit is set and then runs
  `mqtt_app_start` once: it creates the client and, if that succeeds, registers the event
  handler and starts the client. After that the task deletes itself. `mqtt_event_handler`
  sets `mqtt_connected` on CONNECTED, clears it on DISCONNECTED, and ignores every other
  event.
- **Gated command publisher**. `SendMqttMessage` publishes to `tankrobot-topic` with QoS 1
  and no retain. It does this only when a client exists and `mqtt_connected` holds;
  otherwise it drops the message. The constructor binds seven command names to seven
  payloads.

Files:

- `wrappers.dfy`: `Option`.
- `commands.dfy`, module `Commands`: the command table (names, payloads, name lookup).
- `machine.dfy`, module `Machine`: the object's state as a value (`Robot`), what each
  handler, the setup task and a send do to it, the `Event` type, `Run` over an event
  sequence, and the invariant `Inv` of every reachable state.
- `traces.dfy`, module `Traces`: lemmas about event sequences.
- `robot_mqtt.dfy`, module `Robot`: class `RobotMqtt`. Its fields are updated in place. Each
  handler, the setup task and the send (`OnWifiEvent`, `OnMqttEvent`, `RunMqttTask`,
  `SendMqttMessage`, and `Invoke` for a command) are proved to move `Snapshot()` exactly as
  the matching `Machine` function does, and to keep `Valid()`. The helper `MqttAppStart`
  states its effect on the fields directly.

Five calls into the Wi-Fi driver and the MQTT client become entries in the ghost `log`:
`esp_wifi_connect` is `WifiConnect`, `esp_mqtt_client_init` is `ClientInit`,
`esp_mqtt_client_register_event` is `RegisterHandler`, `esp_mqtt_client_start` is
`ClientStart`, and `esp_mqtt_client_publish` is `Publish`. The other FreeRTOS and ESP-IDF
calls are not logged. `xEventGroupCreate` (a clear bit), `esp_event_handler_register` and
`xTaskCreate` are part of the initial state `Init`. `xEventGroupWaitBits` becomes the guard on
the setup step. `vTaskDelete` becomes the rule that the setup step runs only once. The handle that
`esp_mqtt_client_init` returns is a parameter of `RunMqttTask` (`None` for nullptr). The
blocking wait is a precondition of `RunMqttTask`: the bit is set and the task has not run
yet. In an event sequence, a scheduling of the setup task before the bit is set, or after
the task has run, changes nothing. MQTT events reach the object only after its handler is
registered, so `OnMqttEvent` requires the started phase. In an event sequence, MQTT events
arriving before that change nothing.

Assumption: the member `client` (robot_mqtt.cc:30) has no initialiser, and the constructor
initialises only `mqtt_connected`. The model takes the handle to be absent (nullptr) at
construction.

Details of the source that the model keeps:
- An ERROR event leaves `mqtt_connected` unchanged (robot_mqtt.cc:86-88).
- The payloads are the strings registered at robot_mqtt.cc:148-176.
- `esp_mqtt_client_publish` is called with length 0 (robot_mqtt.cc:45). The client then takes
  the payload as a C string, so a message is sent only up to its first NUL. `CString` models
  this. None of the seven payloads contains a NUL, so every command's payload is sent whole.

## Model

| member | source | states |
|---|---|---|
| `Commands.Name` | robot_mqtt.cc:146-174 | The name each command is registered under with the host; every name is non-empty. |
| `Commands.Payload` | robot_mqtt.cc:146-177 | The command table: the payload each command's handler sends; every payload is non-empty and holds no NUL. |
| `Commands.Lookup` | robot_mqtt.cc:146-177 | A name resolves to a command only if that command is registered under exactly that name; an unregistered name resolves to nothing. |
| `Commands.LookupName` | robot_mqtt.cc:146-177 | Each of the seven registered names resolves back to its own command. |
| `Commands.PayloadsDistinct` | robot_mqtt.cc:146-177 | The seven payloads are non-empty and pairwise distinct: equal payloads means the same command. |
| `Machine.Init` | robot_mqtt.cc:137-143 | After construction the bit is clear, the task is waiting, there is no client, the object is not connected, and no call has been made. |
| `Machine.AfterWifiEvent` | robot_mqtt.cc:49-61 | STA_START and STA_DISCONNECTED each add exactly one connect request; readiness afterwards is readiness before or GOT_IP; nothing else changes. |
| `Machine.AfterMqttEvent` | robot_mqtt.cc:64-93 | CONNECTED sets the flag and DISCONNECTED clears it; any change of the flag comes from one of those two events; nothing but the flag changes. |
| `Machine.AfterSetup` | robot_mqtt.cc:98-134 | Starting from a set bit and a waiting task, the client becomes init's result. On nullptr, only the init call is logged and the phase is Failed. Otherwise init, register and start are logged, in that order, and the phase is Started. |
| `Machine.CString` | robot_mqtt.cc:45 | What `c_str()` with length 0 delivers: a prefix of the message that holds no NUL and stops exactly at the first NUL. A message without a NUL is delivered whole. |
| `Machine.AfterSend` | robot_mqtt.cc:34-48 | With no client, or when not connected, nothing changes. Otherwise exactly one publish is appended, through the current client, to "tankrobot-topic" with QoS 1 and retain 0; its payload is the message up to its first NUL. |
| `Machine.Step` | robot_mqtt.cc:98-134 | One event of any kind. A setup-task step does nothing unless the bit is set and the task is still waiting: before that the wait blocks (line 100), and afterwards the task is deleted (line 104). MQTT events do nothing until the handler is registered (lines 129-131). No event clears the bit, and no event rewrites the log. |
| `Traces.StepKeepsInv` | robot_mqtt.cc:34-134 | Every event keeps the invariant: the client exists exactly in the Started phase, connected implies Started, any phase past the wait implies the bit is set, init is logged once past the wait and never before, and every publish is well formed. |
| `Traces.WifiKeepsInv` | robot_mqtt.cc:49-61 | The Wi-Fi handler keeps the invariant. |
| `Traces.ConnectRequestKeepsInv` | robot_mqtt.cc:51-55 | Logging one more Wi-Fi connect request keeps every clause of the invariant. |
| `Traces.SetupKeepsInv` | robot_mqtt.cc:98-134 | The one setup run keeps the invariant, with exactly one init call logged. |
| `Traces.SendKeepsInv` | robot_mqtt.cc:34-48 | A send of any message keeps the invariant. |
| `Traces.RunKeepsInv` | robot_mqtt.cc:34-134 | Any event sequence from a state satisfying the invariant ends in one satisfying it. |
| `Traces.Reachable` | robot_mqtt.cc:30-134 | In every state reachable from construction: connected implies a client exists; a client or a failed setup implies the bit is set; init was called at most once; every publish used the fixed topic, QoS 1 and no retain. |
| `Traces.RunExtendsLog` | robot_mqtt.cc:34-134 | Events only append to the log of calls; they never rewrite it. |
| `Traces.LinkReadyStays` | robot_mqtt.cc:49-61 | Once the bit is set, it stays set after any further events. |
| `Traces.GotIpLatches` | robot_mqtt.cc:56-60 | After any event sequence that contains GOT_IP, the bit is set. |
| `Traces.NoSetupBeforeAddress` | robot_mqtt.cc:98-102 | Without GOT_IP the task stays in the wait: no client, bit clear, and only connect requests are made. |
| `Traces.FailedIsFinal` | robot_mqtt.cc:119-123 | After a failed init, the phase stays Failed, the client stays absent, the flag stays false, and only connect requests follow: no handler, no start, no publish. |
| `Traces.SilentUntilConnected` | robot_mqtt.cc:34-42 | While no CONNECTED event arrives, a disconnected object stays disconnected and publishes nothing. |
| `Traces.DisconnectSilences` | robot_mqtt.cc:73-76 | After DISCONNECTED, no publish happens until the next CONNECTED. |
| `Traces.SetupFailureDropsAll` | robot_mqtt.cc:119-123 | From construction, once setup has failed, no later command is ever published. |
| `Traces.InvokePublishesOnce` | robot_mqtt.cc:44-46 | With a connected client, invoking a command appends exactly one publish, of its whole payload, to the fixed topic with QoS 1 and retain 0, and changes nothing else. |
| `Traces.ScenarioPublishThenDrop` | robot_mqtt.cc:34-48 | Start, address, successful init, CONNECTED, GoForward, DISCONNECTED, GoForward: exactly one publish of "前进" follows the setup calls. |
| `Robot.RobotMqtt.constructor` | robot_mqtt.cc:137-143 | The new object is in the initial state, with no client, and satisfies the invariant. |
| `Robot.RobotMqtt.OnWifiEvent` | robot_mqtt.cc:49-61 | Updates the fields as `AfterWifiEvent` does and keeps the invariant; the bit never goes from set to clear, and GOT_IP sets it. |
| `Robot.RobotMqtt.OnMqttEvent` | robot_mqtt.cc:64-93 | Updates the flag as `AfterMqttEvent` does and keeps the invariant; the client is unchanged, and ERROR leaves the flag as it was. |
| `Robot.RobotMqtt.MqttAppStart` | robot_mqtt.cc:107-134 | The client becomes init's result. Register and start are called only on a non-null result. Bit and flag are unchanged. |
| `Robot.RobotMqtt.RunMqttTask` | robot_mqtt.cc:98-105 | Runs only with the bit set and the task still waiting; moves the state as `AfterSetup` does and leaves the task finished. |
| `Robot.RobotMqtt.SendMqttMessage` | robot_mqtt.cc:34-48 | Updates the state as `AfterSend` does (the gate, then a single publish); bit, client and flag are unchanged; keeps the invariant. |
| `Robot.RobotMqtt.Invoke` | robot_mqtt.cc:146-177 | A command's handler behaves exactly as `SendMqttMessage` on that command's payload. |

## Left out

- Blocking and the separate FreeRTOS task (`xTaskCreate`, `xEventGroupWaitBits`, `vTaskDelete`): the wait is a precondition of `RunMqttTask`, and one setup run is one event.
- The unsynchronised race between the handler's writes to `mqtt_connected` and the read in `SendMqttMessage`: this is concurrency. Each handler call and each send is one atomic step.
- The ESP-IDF, FreeRTOS and MQTT client calls themselves: five of them become ghost log entries, and the rest become the initial state or the setup guard, as described above. The handle returned by init is an input.
- Machine.AfterSend: records the payload as Dafny characters up to the first NUL, not as the UTF-8 bytes the MQTT client puts on the wire.
- The process-wide event group: the bit lives in the file-static `wifi_event_group` (robot_mqtt.cc:23), and every construction replaces that group and registers the Wi-Fi handlers again (robot_mqtt.cc:139-141). The model gives each object its own `linkReady`. It is exact for the single instance that `DECLARE_THING` creates (robot_mqtt.cc:183), not for several objects sharing one bit.
- Robot.RobotMqtt.constructor: always succeeds. In the source, `ESP_ERROR_CHECK` aborts the program if either handler registration fails (robot_mqtt.cc:140-141).
- Logging (`ESP_LOGI`, `ESP_LOGE`) and the `msg_id` returned by the publish call: neither affects state.
- The host's `Thing` base class, `methods_.AddMethod`, the command descriptions, and `DECLARE_THING`: only the name-to-payload mapping is modelled.
- The broker URI, user name and password in `mqtt_app_start`: static configuration with no behaviour.
- The event-group bitmask: only `WIFI_CONNECTED_BIT` is used, and it is modelled as a boolean.
- The GPIO and UART headers: the file includes them but does not use them.
