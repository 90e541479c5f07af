/**
 * The RobotMqtt object itself: its handlers, its setup task and its send update the
 * fields in place. Each handler, the setup task, the send and Invoke are proved to move
 * the object's state exactly as the corresponding Machine function does, keeping
 * Machine.Inv; the helper MqttAppStart states its effect on the fields directly.
 */
module Robot {
  import opened Wrappers
  import Commands
  import opened Machine
  import Traces

  class RobotMqtt {
    /** WIFI_CONNECTED_BIT of the process-wide event group. */
    var linkReady: bool
    /** The setup task's position; the C++ object keeps no such variable. */
    ghost var phase: Phase
    /** The MQTT client handle; None stands for nullptr. */
    var client: Option<Handle>
    /** mqtt_connected. */
    var connected: bool
    /** The calls made into the Wi-Fi driver and the MQTT client, in order. */
    ghost var log: seq<Action>

    ghost function Snapshot(): Robot
      reads this
    {
      Robot(linkReady, phase, client, connected, log)
    }

    ghost predicate Valid()
      reads this
    {
      Inv(Snapshot())
    }

    /**
     * Creates the event group (bit clear), registers the Wi-Fi handler and the setup task,
     * and registers the command table. The handle starts absent.
     */
    constructor ()
      ensures Valid() && Snapshot() == Init()
    {
      linkReady := false;
      phase := AwaitingLink;
      client := None;
      connected := false;
      log := [];
    }

    /** wifi_event_handler. */
    method OnWifiEvent(e: LinkEvent)
      requires Valid()
      modifies this
      ensures Valid() && Snapshot() == AfterWifiEvent(old(Snapshot()), e)
      ensures old(linkReady) ==> linkReady
      ensures e.GotIp? ==> linkReady
    {
      Traces.StepKeepsInv(Snapshot(), Link(e));
      match e {
        case StaStart =>
          log := log + [WifiConnect];
        case StaDisconnected =>
          log := log + [WifiConnect];
        case GotIp =>
          linkReady := true;
        case OtherWifi(_) =>
      }
    }

    /** mqtt_event_handler; only a client this object registered with can call it. */
    method OnMqttEvent(e: MqttEvent)
      requires Valid() && phase == Started
      modifies this
      ensures Valid() && Snapshot() == AfterMqttEvent(old(Snapshot()), e)
      ensures client == old(client)
      ensures e.Error? ==> connected == old(connected)
    {
      Traces.StepKeepsInv(Snapshot(), Mqtt(e));
      match e {
        case Connected =>
          connected := true;
        case Disconnected =>
          connected := false;
        case _ =>
      }
    }

    /**
     * mqtt_app_start: `created` is what esp_mqtt_client_init returns. On nullptr it returns
     * at once; otherwise it registers the handler and starts the client.
     */
    method MqttAppStart(created: Option<Handle>)
      modifies this
      ensures client == created
      ensures linkReady == old(linkReady) && connected == old(connected) && phase == old(phase)
      ensures created.None? ==> log == old(log) + [ClientInit]
      ensures created.Some? ==>
                log == old(log) + [ClientInit, RegisterHandler(created.value), ClientStart(created.value)]
    {
      client := created;
      log := log + [ClientInit];
      if client.None? {
        return;
      }
      log := log + [RegisterHandler(client.value)];
      log := log + [ClientStart(client.value)];
    }

    /**
     * RunMqttTask once the wait for the bit has returned (the bit is not cleared on exit);
     * afterwards the task deletes itself, so this runs once.
     */
    method RunMqttTask(created: Option<Handle>)
      requires Valid() && linkReady && phase == AwaitingLink
      modifies this
      ensures Valid() && Snapshot() == AfterSetup(old(Snapshot()), created)
      ensures phase != AwaitingLink && linkReady
    {
      Traces.StepKeepsInv(Snapshot(), SetupTask(created));
      MqttAppStart(created);
      phase := if client.None? then Failed else Started;
    }

    /** SendMqttMessage: publish on the fixed topic only with a live, connected client. */
    method SendMqttMessage(message: string)
      requires Valid()
      modifies this
      ensures Valid() && Snapshot() == AfterSend(old(Snapshot()), message)
      ensures linkReady == old(linkReady) && client == old(client) && connected == old(connected)
    {
      Traces.SendKeepsInv(Snapshot(), message);
      ghost var before := Snapshot();
      if client.None? {
        return;
      }
      if !connected {
        return;
      }
      log := log + [Publish(client.value, Topic, CString(message), QosAtLeastOnce, NoRetain)];
      // Inv constrains publishes only by client, topic, QoS and retain, not by payload
      assert Snapshot() == before.(log := before.log + [Publish(client.value, Topic, CString(message), QosAtLeastOnce, NoRetain)]);
    }

    /** A registered command's handler: send its payload. */
    method Invoke(c: Commands.Command)
      requires Valid()
      modifies this
      ensures Valid() && Snapshot() == AfterSend(old(Snapshot()), Commands.Payload(c))
      ensures Snapshot() == Step(old(Snapshot()), CommandInvoked(c))
    {
      SendMqttMessage(Commands.Payload(c));
    }
  }
}
