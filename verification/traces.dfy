/**
 * Properties of RobotMqtt over whole event sequences: the invariant every reachable
 * state keeps, the latch's monotonicity, the one-shot setup, and the publish gate.
 */
module Traces {
  import opened Wrappers
  import Commands
  import opened Machine

  lemma {:induction false} InitCountAppend(a: seq<Action>, b: seq<Action>)
    ensures InitCount(a + b) == InitCount(a) + InitCount(b)
    decreases |b|
  {
    if b == [] {
      assert a + b == a;
    } else {
      var b' := b[..|b| - 1];
      assert (a + b)[..|a + b| - 1] == a + b';
      InitCountAppend(a, b');
    }
  }

  /** Each kind of event keeps the invariant. */
  lemma StepKeepsInv(s: Robot, ev: Event)
    requires Inv(s)
    ensures Inv(Step(s, ev))
  {
    match ev
    case Link(e) => WifiKeepsInv(s, e);
    case SetupTask(created) =>
      if s.linkReady && s.phase == AwaitingLink {
        SetupKeepsInv(s, created);
      }
    case Mqtt(e) =>
    case CommandInvoked(c) => SendKeepsInv(s, Commands.Payload(c));
  }

  lemma WifiKeepsInv(s: Robot, e: LinkEvent)
    requires Inv(s)
    ensures Inv(AfterWifiEvent(s, e))
  {
    match e
    case StaStart => ConnectRequestKeepsInv(s);
    case StaDisconnected => ConnectRequestKeepsInv(s);
    case GotIp =>
    case OtherWifi(_) =>
  }

  /** Appending a Wi-Fi connect request keeps every clause of the invariant. */
  lemma ConnectRequestKeepsInv(s: Robot)
    requires Inv(s)
    ensures Inv(s.(log := s.log + [WifiConnect]))
  {
    var log := s.log + [WifiConnect];
    assert log[|s.log|] == WifiConnect;
    assert forall i :: 0 <= i < |s.log| ==> log[i] == s.log[i];
    assert s.phase == AwaitingLink ==> OnlyConnectsFrom(log, 0);
    assert s.phase == Failed ==> forall i :: 0 <= i < |log| ==> log[i].WifiConnect? || log[i].ClientInit?;
    assert PublishesWellFormed(log, s.client);
    InitCountAppend(s.log, [WifiConnect]);
  }

  /** Setup moves the task out of the wait having called init exactly once. */
  lemma SetupKeepsInv(s: Robot, created: Option<Handle>)
    requires Inv(s) && s.linkReady && s.phase == AwaitingLink
    ensures Inv(AfterSetup(s, created))
  {
    match created
    case None =>
      InitCountAppend(s.log, [ClientInit]);
    case Some(h) =>
      var added := [ClientInit, RegisterHandler(h), ClientStart(h)];
      InitCountAppend(s.log, added);
      assert InitCount(added) == 1 by {
        assert added[..2] == [ClientInit, RegisterHandler(h)];
        assert [ClientInit, RegisterHandler(h)][..1] == [ClientInit];
        assert [ClientInit][..0] == [];
        assert InitCount([ClientInit]) == 1;
        assert InitCount([ClientInit, RegisterHandler(h)]) == 1;
      }
  }

  /** A send keeps the invariant whatever the message. */
  lemma SendKeepsInv(s: Robot, message: string)
    requires Inv(s)
    ensures Inv(AfterSend(s, message))
  {
    if s.client.Some? && s.connected {
      InitCountAppend(s.log, [Publish(s.client.value, Topic, CString(message), QosAtLeastOnce, NoRetain)]);
    }
  }

  lemma {:induction false} RunKeepsInv(s: Robot, evs: seq<Event>)
    requires Inv(s)
    ensures Inv(Run(s, evs))
    decreases |evs|
  {
    if evs != [] {
      StepKeepsInv(s, evs[0]);
      RunKeepsInv(Step(s, evs[0]), evs[1..]);
    }
  }

  /**
   * Every state reachable from construction: a client exists exactly when setup started it,
   * `connected` is never true without that client, the client was created only after the
   * latch was set, init was called at most once, and every publish used the fixed topic,
   * QoS 1 and no retain.
   */
  lemma Reachable(evs: seq<Event>)
    ensures var r := Run(Init(), evs);
      && Inv(r)
      && (r.connected ==> r.client.Some?)
      && (r.client.Some? || r.phase == Failed ==> r.linkReady)
      && InitCount(r.log) <= 1
      && PublishesWellFormed(r.log, r.client)
  {
    RunKeepsInv(Init(), evs);
  }

  /** The log is only ever appended to. */
  lemma {:induction false} RunExtendsLog(s: Robot, evs: seq<Event>)
    ensures |s.log| <= |Run(s, evs).log| && Run(s, evs).log[..|s.log|] == s.log
    decreases |evs|
  {
    if evs != [] {
      var t := Step(s, evs[0]);
      assert |s.log| <= |t.log| && t.log[..|s.log|] == s.log;
      RunExtendsLog(t, evs[1..]);
    }
  }

  /** Once set, the readiness bit stays set whatever follows. */
  lemma {:induction false} LinkReadyStays(s: Robot, evs: seq<Event>)
    requires s.linkReady
    ensures Run(s, evs).linkReady
    decreases |evs|
  {
    if evs != [] {
      LinkReadyStays(Step(s, evs[0]), evs[1..]);
    }
  }

  /** After any sequence containing GOT_IP the readiness bit is set. */
  lemma {:induction false} GotIpLatches(s: Robot, evs: seq<Event>, i: nat)
    requires i < |evs| && evs[i] == Link(GotIp)
    ensures Run(s, evs).linkReady
    decreases i
  {
    if i == 0 {
      LinkReadyStays(Step(s, evs[0]), evs[1..]);
    } else {
      GotIpLatches(Step(s, evs[0]), evs[1..], i - 1);
    }
  }

  /**
   * Without GOT_IP the setup task stays blocked: no client is created and the only calls
   * made are Wi-Fi connect requests.
   */
  lemma {:induction false} NoSetupBeforeAddress(s: Robot, evs: seq<Event>)
    requires s.phase == AwaitingLink && !s.linkReady && s.client.None?
    requires Link(GotIp) !in evs
    ensures var r := Run(s, evs);
      r.phase == AwaitingLink && !r.linkReady && r.client.None? && r.connected == s.connected
      && |s.log| <= |r.log| && r.log[..|s.log|] == s.log && OnlyConnectsFrom(r.log, |s.log|)
    decreases |evs|
  {
    if evs != [] {
      var t := Step(s, evs[0]);
      assert evs[0] in evs;
      assert Link(GotIp) !in evs[1..] by {
        forall j | 0 <= j < |evs[1..]| ensures evs[1..][j] != Link(GotIp) {
          assert evs[1..][j] == evs[j + 1];
        }
      }
      NoSetupBeforeAddress(t, evs[1..]);
    }
  }

  /**
   * A failed init is final: no handler is registered, no start is issued, the flag never
   * rises, and every later command is dropped; only Wi-Fi connect requests follow.
   */
  lemma {:induction false} FailedIsFinal(s: Robot, evs: seq<Event>)
    requires s.phase == Failed && s.client.None? && !s.connected
    ensures var r := Run(s, evs);
      r.phase == Failed && r.client.None? && !r.connected
      && |s.log| <= |r.log| && r.log[..|s.log|] == s.log && OnlyConnectsFrom(r.log, |s.log|)
    decreases |evs|
  {
    if evs != [] {
      FailedIsFinal(Step(s, evs[0]), evs[1..]);
    }
  }

  /** While no CONNECTED event arrives, a disconnected object publishes nothing. */
  lemma {:induction false} SilentUntilConnected(s: Robot, evs: seq<Event>)
    requires !s.connected
    requires Mqtt(Connected) !in evs
    ensures var r := Run(s, evs);
      !r.connected && |s.log| <= |r.log| && r.log[..|s.log|] == s.log && NoPublishFrom(r.log, |s.log|)
    decreases |evs|
  {
    if evs != [] {
      var t := Step(s, evs[0]);
      assert evs[0] in evs;
      assert Mqtt(Connected) !in evs[1..] by {
        forall j | 0 <= j < |evs[1..]| ensures evs[1..][j] != Mqtt(Connected) {
          assert evs[1..][j] == evs[j + 1];
        }
      }
      assert !t.connected && |s.log| <= |t.log| && t.log[..|s.log|] == s.log;
      assert NoPublishFrom(t.log, |s.log|);
      SilentUntilConnected(t, evs[1..]);
      var r := Run(t, evs[1..]);
      forall i | |s.log| <= i < |r.log| ensures !r.log[i].Publish? {
        if i < |t.log| {
          assert r.log[i] == r.log[..|t.log|][i] == t.log[i];
        }
      }
      assert r.log[..|s.log|] == r.log[..|t.log|][..|s.log|];
    }
  }

  /** After DISCONNECTED, nothing is published until the next CONNECTED. */
  lemma DisconnectSilences(s: Robot, evs: seq<Event>)
    requires Inv(s)
    requires Mqtt(Connected) !in evs
    ensures NoPublishFrom(Run(Step(s, Mqtt(Disconnected)), evs).log, |s.log|)
  {
    SilentUntilConnected(Step(s, Mqtt(Disconnected)), evs);
  }

  /** From construction: once setup has failed, no command is ever published afterwards. */
  lemma SetupFailureDropsAll(before: seq<Event>, after: seq<Event>)
    requires Run(Init(), before).phase == Failed
    ensures var s := Run(Init(), before);
      NoPublishFrom(Run(s, after).log, |s.log|)
  {
    Reachable(before);
    FailedIsFinal(Run(Init(), before), after);
  }

  /** A live session publishes a command's payload exactly once and changes nothing else. */
  lemma InvokePublishesOnce(s: Robot, c: Commands.Command)
    requires s.client.Some? && s.connected
    ensures Step(s, CommandInvoked(c))
         == s.(log := s.log + [Publish(s.client.value, Topic, Commands.Payload(c), QosAtLeastOnce, NoRetain)])
  {
  }

  /** Start, address, successful init, connect, a command, disconnect, the command again. */
  lemma ScenarioPublishThenDrop(h: Handle)
    ensures Run(Init(), [Link(StaStart), Link(GotIp), SetupTask(Some(h)), Mqtt(Connected),
                         CommandInvoked(Commands.GoForward), Mqtt(Disconnected), CommandInvoked(Commands.GoForward)]).log
         == [WifiConnect, ClientInit, RegisterHandler(h), ClientStart(h), Publish(h, "tankrobot-topic", "前进", 1, 0)]
  {
    var evs := [Link(StaStart), Link(GotIp), SetupTask(Some(h)), Mqtt(Connected),
                CommandInvoked(Commands.GoForward), Mqtt(Disconnected), CommandInvoked(Commands.GoForward)];
    var s1 := Init().(log := [WifiConnect]);
    var s2 := s1.(linkReady := true);
    var s3 := s2.(phase := Started, client := Some(h),
                  log := [WifiConnect, ClientInit, RegisterHandler(h), ClientStart(h)]);
    var s4 := s3.(connected := true);
    var s5 := s4.(log := s4.log + [Publish(h, "tankrobot-topic", "前进", 1, 0)]);
    var s6 := s5.(connected := false);
    assert Step(Init(), evs[0]) == s1 by { assert [] + [WifiConnect] == [WifiConnect]; }
    assert Step(s1, evs[1]) == s2;
    assert Step(s2, evs[2]) == s3 by {
      assert [WifiConnect] + [ClientInit, RegisterHandler(h), ClientStart(h)] == s3.log;
    }
    assert Step(s3, evs[3]) == s4;
    assert Step(s4, evs[4]) == s5 by { assert CString("前进") == "前进"; }
    assert Step(s5, evs[5]) == s6;
    assert Step(s6, evs[6]) == s6;
    assert Run(Init(), evs) == Run(s1, evs[1..]);
    assert Run(s1, evs[1..]) == Run(s2, evs[2..]);
    assert Run(s2, evs[2..]) == Run(s3, evs[3..]);
    assert Run(s3, evs[3..]) == Run(s4, evs[4..]);
    assert Run(s4, evs[4..]) == Run(s5, evs[5..]);
    assert Run(s5, evs[5..]) == Run(s6, evs[6..]);
    assert Run(s6, evs[6..]) == Run(s6, []);
  }
}
