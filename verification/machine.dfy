/**
 * The RobotMqtt state machine as values: the link-readiness latch, the setup task's
 * position, the MQTT client handle, the `mqtt_connected` flag, and a log of the calls
 * the object makes into the Wi-Fi driver and the MQTT client. Each function gives the
 * state after one handler, task step or send.
 */
module Machine {
  import opened Wrappers
  import Commands

  /** An opaque, non-null esp_mqtt_client_handle_t. */
  type Handle = nat

  /** The one topic every message is published to. */
  const Topic: string := "tankrobot-topic"
  /** MQTT QoS 1, "at least once" (section 4.3.2 of MQTT 3.1.1). */
  const QosAtLeastOnce: nat := 1
  /** The RETAIN flag cleared (section 3.3.1.3 of MQTT 3.1.1). */
  const NoRetain: nat := 0

  /** Where the setup task is: blocked in the wait, or deleted after a start or a failed init. */
  datatype Phase = AwaitingLink | Started | Failed

  /** A call the object makes into the Wi-Fi driver or the MQTT client. */
  datatype Action =
    | WifiConnect
    | ClientInit
    | RegisterHandler(client: Handle)
    | ClientStart(client: Handle)
    | Publish(client: Handle, topic: string, payload: string, qos: nat, retain: nat)

  /** The events delivered to wifi_event_handler: every WIFI_EVENT id, and IP_EVENT_STA_GOT_IP. */
  datatype LinkEvent = StaStart | StaDisconnected | GotIp | OtherWifi(id: int)

  /** The events delivered to mqtt_event_handler. */
  datatype MqttEvent =
    | Connected | Disconnected | Subscribed | Unsubscribed | Published | Error
    | OtherMqtt(id: int)

  datatype Robot = Robot(
    linkReady: bool,       // WIFI_CONNECTED_BIT of the event group
    phase: Phase,
    client: Option<Handle>,
    connected: bool,       // mqtt_connected
    log: seq<Action>)

  /** The state right after construction: the bit clear, the task waiting, no client, not connected. */
  function Init(): (r: Robot)
    ensures !r.linkReady && r.phase == AwaitingLink && r.client.None? && !r.connected && r.log == []
  {
    Robot(false, AwaitingLink, None, false, [])
  }

  /** wifi_event_handler: a start or a disconnect asks the driver to connect; GOT_IP sets the bit. */
  function AfterWifiEvent(s: Robot, e: LinkEvent): (r: Robot)
    ensures r.phase == s.phase && r.client == s.client && r.connected == s.connected
    ensures r.linkReady <==> s.linkReady || e == GotIp
    ensures e.StaStart? || e.StaDisconnected? ==> r.log == s.log + [WifiConnect]
    ensures e.GotIp? || e.OtherWifi? ==> r.log == s.log
  {
    match e
    case StaStart => s.(log := s.log + [WifiConnect])
    case StaDisconnected => s.(log := s.log + [WifiConnect])
    case GotIp => s.(linkReady := true)
    case OtherWifi(_) => s
  }

  /** mqtt_event_handler: CONNECTED sets the flag, DISCONNECTED clears it, all else is ignored. */
  function AfterMqttEvent(s: Robot, e: MqttEvent): (r: Robot)
    ensures r.(connected := s.connected) == s
    ensures e.Connected? ==> r.connected
    ensures e.Disconnected? ==> !r.connected
    ensures r.connected != s.connected ==> e.Connected? || e.Disconnected?
  {
    match e
    case Connected => s.(connected := true)
    case Disconnected => s.(connected := false)
    case _ => s
  }

  /**
   * RunMqttTask once the wait has returned, with mqtt_app_start inlined: the client is
   * whatever esp_mqtt_client_init returned; on None nothing more happens, otherwise the
   * handler is registered and the client started.
   */
  function AfterSetup(s: Robot, created: Option<Handle>): (r: Robot)
    requires s.linkReady && s.phase == AwaitingLink
    ensures r.linkReady && r.connected == s.connected && r.client == created
    ensures created.None? ==> r.phase == Failed && r.log == s.log + [ClientInit]
    ensures created.Some? ==>
              r.phase == Started
              && r.log == s.log + [ClientInit, RegisterHandler(created.value), ClientStart(created.value)]
  {
    match created
    case None => s.(phase := Failed, client := None, log := s.log + [ClientInit])
    case Some(h) =>
      s.(phase := Started, client := Some(h),
         log := s.log + [ClientInit, RegisterHandler(h), ClientStart(h)])
  }

  /**
   * What `message.c_str()` with length 0 hands the client: the characters before the
   * first NUL, or all of them when there is none.
   */
  function CString(message: string): (r: string)
    ensures r <= message && '\0' !in r
    ensures |r| < |message| ==> message[|r|] == '\0'
    ensures '\0' !in message ==> r == message
  {
    if message == [] || message[0] == '\0' then [] else [message[0]] + CString(message[1..])
  }

  /** SendMqttMessage: publishes only when a client exists and is connected, else drops. */
  function AfterSend(s: Robot, message: string): (r: Robot)
    ensures s.client.None? ==> r == s
    ensures !s.connected ==> r == s
    ensures s.client.Some? && s.connected ==>
      r == s.(log := s.log + [Publish(s.client.value, "tankrobot-topic", CString(message), 1, 0)])
  {
    if s.client.None? then s
    else if !s.connected then s
    else s.(log := s.log + [Publish(s.client.value, Topic, CString(message), QosAtLeastOnce, NoRetain)])
  }

  /** Anything that can happen to the object, in the order it happens. */
  datatype Event =
    | Link(link: LinkEvent)
    | SetupTask(created: Option<Handle>)   // the task is scheduled; `created` is what init returns
    | Mqtt(mqtt: MqttEvent)
    | CommandInvoked(command: Commands.Command)

  /**
   * One event. The setup task makes progress only when the bit is set and it has not yet
   * run (it blocks before, and has deleted itself after); MQTT events reach the object
   * only once its handler is registered.
   */
  function Step(s: Robot, ev: Event): (r: Robot)
    ensures ev.SetupTask? && !(s.linkReady && s.phase == AwaitingLink) ==> r == s
    ensures ev.Mqtt? && s.phase != Started ==> r == s
    ensures s.linkReady ==> r.linkReady
    ensures |s.log| <= |r.log| && r.log[..|s.log|] == s.log
  {
    match ev
    case Link(e) => AfterWifiEvent(s, e)
    case SetupTask(created) =>
      if s.linkReady && s.phase == AwaitingLink then AfterSetup(s, created) else s
    case Mqtt(e) => if s.phase == Started then AfterMqttEvent(s, e) else s
    case CommandInvoked(c) => AfterSend(s, Commands.Payload(c))
  }

  function Run(s: Robot, evs: seq<Event>): Robot
    decreases |evs|
  {
    if evs == [] then s else Run(Step(s, evs[0]), evs[1..])
  }

  /** How many times the log records an esp_mqtt_client_init call. */
  function InitCount(log: seq<Action>): nat
  {
    if log == [] then 0 else InitCount(log[..|log| - 1]) + (if log[|log| - 1].ClientInit? then 1 else 0)
  }

  /** Every entry of the log from position `n` on is a Wi-Fi connect request. */
  ghost predicate OnlyConnectsFrom(log: seq<Action>, n: nat)
  {
    forall i :: n <= i < |log| ==> log[i].WifiConnect?
  }

  /** No entry of the log from position `n` on is a publish. */
  ghost predicate NoPublishFrom(log: seq<Action>, n: nat)
  {
    forall i :: n <= i < |log| ==> !log[i].Publish?
  }

  /** Every publish in the log went to the fixed topic with QoS 1, not retained, through client `h`. */
  ghost predicate PublishesWellFormed(log: seq<Action>, client: Option<Handle>)
  {
    forall i :: 0 <= i < |log| && log[i].Publish? ==>
      client == Some(log[i].client) && log[i].topic == Topic
      && log[i].qos == QosAtLeastOnce && log[i].retain == NoRetain
  }

  /** What holds in every state reachable from Init. */
  ghost predicate Inv(s: Robot)
  {
    (s.phase != AwaitingLink ==> s.linkReady)
    && (s.client.Some? <==> s.phase == Started)
    && (s.connected ==> s.phase == Started)
    && (s.phase == AwaitingLink ==> OnlyConnectsFrom(s.log, 0))
    && (s.phase == Failed ==> forall i :: 0 <= i < |s.log| ==> s.log[i].WifiConnect? || s.log[i].ClientInit?)
    && InitCount(s.log) == (if s.phase == AwaitingLink then 0 else 1)
    && PublishesWellFormed(s.log, s.client)
  }
}
