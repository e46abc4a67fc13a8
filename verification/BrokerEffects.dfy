/** What each step does, seen from outside: to the logs, to what the client gets, to the streams and to the record of
    what may have been missed. */
module BrokerEffects {
  import opened Options
  import opened Patterns
  import opened Counts
  import opened Subscriptions
  import opened Broker
  import opened BrokerInvariant
  import opened BrokerSafety
  import opened BrokerTheorems
  import Operations
  import Written

  // ---------------------------------------------------------------------------
  // Publications

  function StagesLeft(stage: SendStage): nat {
    match stage
    case CheckExists => 5
    case CheckAgain => 4
    case InsertTopic => 3
    case Announce => 2
    case Append => 1
  }

  ghost predicate SameLogs(bus: Bus, bus': Bus) {
    forall u :: Log(bus', u) == Log(bus, u)
  }

  /** Only t's log has changed: it has one more entry, which is also the retained message. */
  ghost predicate LogGains(bus: Bus, bus': Bus, t: Topic, m: Message) {
    && t in bus'.topics && Log(bus', t) == Log(bus, t) + [m] && bus'.topics[t].lastMessage == Some(m)
    && forall u :: u != t ==> Log(bus', u) == Log(bus, u)
  }

  lemma OpenedLogs(bus: Bus, t: Topic)
    requires BusOk(bus) && t !in bus.topics
    ensures SameLogs(bus, Opened(bus, t))
  {
    forall u ensures Log(Opened(bus, t), u) == Log(bus, u) {
      if u in bus.topics {
        OpenedLog(bus, t, u);
      }
    }
  }

  lemma AppendedLogs(bus: Bus, t: Topic, m: Message)
    requires BusOk(bus) && t in bus.topics && bus.topics[t].sender < |bus.channels|
    ensures LogGains(bus, Appended(bus, t, m), t, m)
  {
    forall u ensures Log(Appended(bus, t, m), u) == Log(bus, u) + if u == t then [m] else [] {
      if u in bus.topics {
        AppendedLog(bus, t, m, u);
      }
    }
  }

  /** A task in the middle of a send or create_topic comes closer to its end, whatever others have done meanwhile.
      Until then no log changes; at its end the topic exists, and a message to publish is in its log. */
  lemma SendGoesOn(bus: Bus, c: Conn)
    requires BusOk(bus) && c.pc.Sending? && TaskOk(bus, c.pc)
    ensures var o := DoSend(bus, c);
            var t, payload := c.pc.topic, c.pc.payload;
            if o.conn.pc.Sending? then
              && o.conn.pc.topic == t && o.conn.pc.payload == payload
              && StagesLeft(o.conn.pc.stage) < StagesLeft(c.pc.stage)
              && SameLogs(bus, o.bus)
            else
              && o.conn.pc.Idle? && t in o.bus.topics
              && if payload.Some? then LogGains(bus, o.bus, t, payload.value) else SameLogs(bus, o.bus)
  {
    if c.pc.stage.Append? {
      AppendPc(bus, c);
      assert TopicOk(bus, c.pc.topic);
      AppendedLogs(bus, c.pc.topic, c.pc.payload.value);
    } else {
      CreateGoesOn(bus, c);
    }
  }

  lemma CreateGoesOn(bus: Bus, c: Conn)
    requires BusOk(bus) && c.pc.Sending? && !c.pc.stage.Append? && TaskOk(bus, c.pc)
    ensures var o := DoSend(bus, c);
            var t, payload := c.pc.topic, c.pc.payload;
            && SameLogs(bus, o.bus)
            && if o.conn.pc.Sending? then
                 && o.conn.pc.topic == t && o.conn.pc.payload == payload
                 && StagesLeft(o.conn.pc.stage) < StagesLeft(c.pc.stage)
               else
                 o.conn.pc.Idle? && t in o.bus.topics && payload.None?
  {
    if c.pc.stage.InsertTopic? && c.pc.topic !in bus.topics {
      OpenedLogs(bus, c.pc.topic);
    }
  }

  /** Publications end in the log: in any interleaving, racing creators included. */
  lemma PublicationEndsInLog(s: System, id: nat)
    requires ReachableConn(s, id) && s.conns[id].pc.Sending?
    ensures Possible(s, Run(id, SendStep))
    ensures var pc, s' := s.conns[id].pc, Apply(s, Run(id, SendStep));
            var pc' := s'.conns[id].pc;
            if pc'.Sending? then
              && pc'.topic == pc.topic && pc'.payload == pc.payload && StagesLeft(pc'.stage) < StagesLeft(pc.stage)
              && SameLogs(s.bus, s'.bus)
            else
              && pc'.Idle? && pc.topic in s'.bus.topics
              && if pc.payload.Some? then LogGains(s.bus, s'.bus, pc.topic, pc.payload.value) else SameLogs(s.bus, s'.bus)
  {
    ReachableConnOk(s, id);
    SendGoesOn(s.bus, s.conns[id]);
  }

  /** What the action publishes on t: a message, by the last step of its publication, or nothing. */
  ghost function Published(s: System, a: Action, t: Topic): seq<Message> {
    if a.Run? && a.step.SendStep? && a.id in s.conns then PublishedBy(s.conns[a.id].pc, t) else []
  }

  ghost function PublishedBy(pc: Pc, t: Topic): seq<Message> {
    if pc.Sending? && pc.topic == t && pc.stage.Append? && pc.payload.Some? then [pc.payload.value] else []
  }

  /** Every log gains exactly what is published on its topic: no action of anybody else changes it. */
  lemma LogsGainPublications(s: System, a: Action, t: Topic)
    requires Reachable(s) && Possible(s, a)
    ensures Log(Apply(s, a).bus, t) == Log(s.bus, t) + Published(s, a, t)
  {
    ReachableInv(s);
    ActionPublishes(s, a, t);
  }

  lemma ActionPublishes(s: System, a: Action, t: Topic)
    requires Inv(s) && Possible(s, a)
    ensures Log(Apply(s, a).bus, t) == Log(s.bus, t) + Published(s, a, t)
  {
    if a.Run? && a.step.SendStep? {
      assert TaskOk(s.bus, s.conns[a.id].pc);
      SendAction(s, a.id, t);
    } else {
      OnlySendMovesBus(s, a);
    }
  }

  /** A behaviour with the action of each of its steps. */
  ghost predicate Performed(trace: seq<System>, actions: seq<Action>) {
    && |trace| == |actions| + 1 && Init(trace[0])
    && forall i :: 0 <= i < |actions| ==> Possible(trace[i], actions[i]) && trace[i + 1] == Apply(trace[i], actions[i])
  }

  ghost function AllPublished(trace: seq<System>, actions: seq<Action>, t: Topic): seq<Message>
    requires |trace| == |actions| + 1
  {
    if actions == [] then [] else
    var n := |actions| - 1;
    AllPublished(trace[..n + 1], actions[..n], t) + Published(trace[n], actions[n], t)
  }

  /** A topic's log is the messages whose publication has ended, in the order of their ends, each once. */
  lemma {:induction false} LogIsPublications(trace: seq<System>, actions: seq<Action>, t: Topic)
    requires Performed(trace, actions)
    ensures Inv(trace[|actions|]) && Log(trace[|actions|].bus, t) == AllPublished(trace, actions, t)
  {
    if actions != [] {
      var n := |actions| - 1;
      LogIsPublications(trace[..n + 1], actions[..n], t);
      ActionInv(trace[n], actions[n]);
      ActionPublishes(trace[n], actions[n], t);
    }
  }

  lemma SendAction(s: System, id: nat, t: Topic)
    requires BusOk(s.bus) && Possible(s, Run(id, SendStep)) && TaskOk(s.bus, s.conns[id].pc)
    ensures Log(Apply(s, Run(id, SendStep)).bus, t) == Log(s.bus, t) + PublishedBy(s.conns[id].pc, t)
  {
    SendChangesLog(s.bus, s.conns[id], t);
  }

  lemma OnlySendMovesBus(s: System, a: Action)
    requires Possible(s, a) && !(a.Run? && a.step.SendStep?)
    ensures Apply(s, a).bus == s.bus
  {
  }

  lemma SendChangesLog(bus: Bus, c: Conn, t: Topic)
    requires BusOk(bus) && c.pc.Sending? && TaskOk(bus, c.pc)
    ensures Log(DoSend(bus, c).bus, t) == Log(bus, t) + PublishedBy(c.pc, t)
  {
    SendGoesOn(bus, c);
    LastStage(bus, c);
  }

  lemma LastStage(bus: Bus, c: Conn)
    requires c.pc.Sending? && TaskOk(bus, c.pc)
    ensures c.pc.payload.Some? ==> (DoSend(bus, c).conn.pc.Sending? <==> !c.pc.stage.Append?)
    ensures c.pc.stage.Append? ==> c.pc.payload.Some?
  {
  }

  // ---------------------------------------------------------------------------
  // What the client gets

  /** Something is enqueued exactly when a retained message meets an open queue with room, or a live one is forwarded;
      it is the log's entry just before the stream's cursor. */
  lemma EnqueuesIff(s: System, id: nat, step: Step)
    requires ReachableConn(s, id) && Possible(s, Run(id, step))
    ensures var c, c' := s.conns[id], Apply(s, Run(id, step)).conns[id];
            var enqueues := step.Forward? || (step.Seed? && c.open && c.queued < c.queueCapacity);
            && (c'.sent != c.sent <==> enqueues)
            && (enqueues ==>
                  && c.pc.topic in c.streams && 0 < c.streams[c.pc.topic].cursor <= |Log(s.bus, c.pc.topic)|
                  && var t, i := c.pc.topic, c.streams[c.pc.topic].cursor - 1;
                     c'.sent == c.sent + [Delivery(t, i, Log(s.bus, t)[i], c.streams[t].episode)])
  {
    ReachableConnOk(s, id);
    StepEnqueues(s.bus, s.conns[id], step);
  }

  lemma StepEnqueues(bus: Bus, c: Conn, step: Step)
    requires PcOk(bus, c) && Enabled(bus, c, step)
    ensures var c' := Do(bus, c, step).conn;
            var enqueues := step.Forward? || (step.Seed? && c.open && c.queued < c.queueCapacity);
            && (c'.sent != c.sent <==> enqueues)
            && (enqueues ==>
                  && c.pc.topic in c.streams && 0 < c.streams[c.pc.topic].cursor <= |Log(bus, c.pc.topic)|
                  && var t, i := c.pc.topic, c.streams[c.pc.topic].cursor - 1;
                     c'.sent == c.sent + [Delivery(t, i, Log(bus, t)[i], c.streams[t].episode)])
  {
    var c' := Do(bus, c, step).conn;
    if step.Forward? {
      assert |c'.sent| == |c.sent| + 1;
    } else if step.Seed? {
      assert c.open && c.queued < c.queueCapacity ==> |c'.sent| == |c.sent| + 1;
    } else {
      OnlySeedAndForwardEnqueue(bus, c, step);
    }
  }

  /** The message taken from a stream is the one at its cursor, which moves on by one. */
  lemma TakenIsNext(s: System, id: nat, t: Topic)
    requires ReachableConn(s, id) && Possible(s, Run(id, TakeMessage(t)))
    ensures var c, c' := s.conns[id], Apply(s, Run(id, TakeMessage(t))).conns[id];
            && c.streams[t].cursor < |Log(s.bus, t)|
            && c'.pc == Forwarding(t, Log(s.bus, t)[c.streams[t].cursor], c.streams[t].cursor)
            && c'.streams == c.streams[t := c.streams[t].(cursor := c.streams[t].cursor + 1)]
  {
    ReachableStream(s, id, t);
    TakesNext(s.bus, s.conns[id], t);
  }

  lemma TakesNext(bus: Bus, c: Conn, t: Topic)
    requires Enabled(bus, c, TakeMessage(t)) && StreamOk(bus, c, t)
    ensures var c' := Do(bus, c, TakeMessage(t)).conn;
            && c.streams[t].cursor < |Log(bus, t)|
            && c'.pc == Forwarding(t, Log(bus, t)[c.streams[t].cursor], c.streams[t].cursor)
            && c'.streams == c.streams[t := c.streams[t].(cursor := c.streams[t].cursor + 1)]
            && c'.events == c.events
  {
  }

  /** A stream that has fallen behind what is retained moves to the oldest entry retained, and nowhere else. */
  lemma LagMovesToOldest(s: System, id: nat, t: Topic)
    requires ReachableConn(s, id) && Possible(s, Run(id, LagStream(t)))
    ensures var c, c' := s.conns[id], Apply(s, Run(id, LagStream(t))).conns[id];
            var oldest := |Log(s.bus, t)| - s.bus.capacity;
            && c.streams[t].cursor < oldest
            && c'.streams == c.streams[t := c.streams[t].(cursor := oldest, footing := Lagged)]
            && c'.pc == c.pc && c'.sent == c.sent
  {
    ReachableStream(s, id, t);
    LagsTo(s.bus, s.conns[id], t);
  }

  lemma LagsTo(bus: Bus, c: Conn, t: Topic)
    requires Enabled(bus, c, LagStream(t)) && StreamOk(bus, c, t)
    ensures var c', oldest := Do(bus, c, LagStream(t)).conn, |Log(bus, t)| - bus.capacity;
            && c.streams[t].cursor < oldest
            && c'.streams == c.streams[t := c.streams[t].(cursor := oldest, footing := Lagged)]
            && c'.pc == c.pc && c'.sent == c.sent && c'.events == c.events
  {
  }

  /** An episode stops being clean exactly when its stream lags or its retained message is dropped. */
  lemma UncleanIff(s: System, id: nat, step: Step, episode: nat)
    requires ReachableConn(s, id) && Possible(s, Run(id, step))
    requires episode < |s.conns[id].episodes| && s.conns[id].episodes[episode].clean
    ensures var c, c' := s.conns[id], Apply(s, Run(id, step)).conns[id];
            && episode < |c'.episodes|
            && (!c'.episodes[episode].clean <==>
                  || (step.LagStream? && c.streams[step.topic].episode == episode)
                  || (step.Seed? && !(c.open && c.queued < c.queueCapacity) && c.pc.topic in c.streams
                      && c.streams[c.pc.topic].episode == episode))
  {
    ReachableConnOk(s, id);
    StepUncleans(s.bus, s.conns[id], step, episode);
  }

  lemma StepUncleans(bus: Bus, c: Conn, step: Step, episode: nat)
    requires PcOk(bus, c) && Enabled(bus, c, step) && episode < |c.episodes| && c.episodes[episode].clean
    ensures var c' := Do(bus, c, step).conn;
            && episode < |c'.episodes|
            && (!c'.episodes[episode].clean <==>
                  || (step.LagStream? && c.streams[step.topic].episode == episode)
                  || (step.Seed? && !(c.open && c.queued < c.queueCapacity) && c.pc.topic in c.streams
                      && c.streams[c.pc.topic].episode == episode))
  {
    if step.SendStep? {
      SendShape(bus, c);
    }
  }

  /** The client's queue holds what was enqueued and not yet taken. */
  lemma QueueLedger(bus: Bus, c: Conn, step: Step)
    requires Enabled(bus, c, step)
    ensures var c' := Do(bus, c, step).conn;
            && c'.queued - c.queued == |c'.sent| - |c.sent| - (if step.ClientTakes? then 1 else 0)
            && c'.queueCapacity == c.queueCapacity && (c.queued <= c.queueCapacity ==> c'.queued <= c.queueCapacity)
            && (c'.open <==> c.open && !step.ClientCloses?)
  {
    if step.SendStep? {
      SendShape(bus, c);
    } else if step.Seed? {
      SeedQueued(c);
    } else if step.NextTopic? {
      NextTopicQueued(bus, c);
    } else if !step.Forward? {
      OnlySeedAndForwardEnqueue(bus, c, step);
    }
  }

  lemma NextTopicQueued(bus: Bus, c: Conn)
    requires Enabled(bus, c, NextTopic)
    ensures var c' := Do(bus, c, NextTopic).conn;
            && c'.queued == c.queued && c'.sent == c.sent && c'.open == c.open && c'.queueCapacity == c.queueCapacity
  {
  }

  lemma SeedQueued(c: Conn)
    requires c.pc.Seeding?
    ensures var c' := SeedClient(c);
            && c'.queued - c.queued == |c'.sent| - |c.sent| && c'.open == c.open
            && c'.queueCapacity == c.queueCapacity && (c.queued <= c.queueCapacity ==> c'.queued <= c.queueCapacity)
  {
  }

  // ---------------------------------------------------------------------------
  // What may have been missed

  /** The record of hidden patterns says so exactly when an insertion has taken a listed pattern off the list since the
      last unsubscription. */
  lemma HiddenIff(bus: Bus, c: Conn, step: Step)
    requires SubsValid(c.subs) && Enabled(bus, c, step)
    ensures Do(bus, c, step).conn.hidden <==>
              || (c.hidden && !step.Unsubscribe?)
              || (step.Subscribe? && c.subs.AsWritten?
                  && exists w :: Listed(c.subs.tree, w) && !Listed(Operations.Inserted(c.subs.tree, step.pattern), w))
  {
    match step
    case Subscribe(pattern) =>
      if c.subs.AsWritten? {
        Written.InsertHidesNothingIff(c.subs.tree, pattern);
      }
    case Unsubscribe(_) =>
    case _ => OthersKeepFlags(bus, c, step);
  }

  lemma OthersKeepFlags(bus: Bus, c: Conn, step: Step)
    requires Enabled(bus, c, step) && !step.Subscribe? && !step.Unsubscribe?
    ensures Do(bus, c, step).conn.hidden == c.hidden && Do(bus, c, step).conn.revealed == c.revealed
  {
    if step.SendStep? {
      SendShape(bus, c);
    } else if step.Seed? {
      SeedKeepsFlags(c);
    } else if step.NextTopic? {
      NextTopicKeepsFlags(bus, c);
    }
  }

  lemma SeedKeepsFlags(c: Conn)
    requires c.pc.Seeding?
    ensures SeedClient(c).hidden == c.hidden && SeedClient(c).revealed == c.revealed
  {
  }

  lemma NextTopicKeepsFlags(bus: Bus, c: Conn)
    requires Enabled(bus, c, NextTopic)
    ensures Do(bus, c, NextTopic).conn.hidden == c.hidden && Do(bus, c, NextTopic).conn.revealed == c.revealed
  {
  }

  /** The record of the empty pattern says so exactly when a removal has made some topic match since the topics were
      last listed. */
  lemma RevealedIff(bus: Bus, c: Conn, step: Step)
    requires SubsValid(c.subs) && Enabled(bus, c, step)
    ensures Do(bus, c, step).conn.revealed <==>
              || (c.revealed && !step.Subscribe?)
              || (step.Unsubscribe? && exists t :: !SubCheck(c.subs, t) && SubCheck(SubRemove(c.subs, step.pattern), t))
  {
    match step
    case Unsubscribe(pattern) =>
      forall t ensures !SubCheck(c.subs, t) && SubCheck(SubRemove(c.subs, pattern), t) <==>
                       t == [] && BringsBackEmpty(c.subs, pattern) {
        RemoveStartsMatchIff(c.subs, pattern, t);
      }
      if BringsBackEmpty(c.subs, pattern) {
        assert !SubCheck(c.subs, []) && SubCheck(SubRemove(c.subs, pattern), []);
      }
    case Subscribe(_) =>
    case _ => OthersKeepFlags(bus, c, step);
  }

  /** The record of missed topics holds exactly those of the events skipped since the topics were last listed. */
  lemma MissedIff(bus: Bus, c: Conn, step: Step, t: Topic)
    requires c.events <= |bus.created| && Enabled(bus, c, step)
    ensures var c' := Do(bus, c, step).conn;
            && (t in c'.missed <==>
                  || (t in c.missed && !step.Subscribe?)
                  || (step.LagEvents? && t in bus.created[c.events..|bus.created| - bus.capacity]))
            && (c'.events == if step.TakeEvent? then c.events + 1
                             else if step.LagEvents? then |bus.created| - bus.capacity else c.events)
  {
    StepShape(bus, c, step);
    if step.LagEvents? {
      var n := |bus.created| - bus.capacity;
      assert t in Announcements(bus, c.events, n) <==> t in bus.created[c.events..n] by {
        if t in bus.created[c.events..n] {
          var k :| 0 <= k < n - c.events && bus.created[c.events..n][k] == t;
          assert bus.created[c.events + k] == t;
        }
        if i :| c.events <= i < n && bus.created[i] == t {
          assert bus.created[c.events..n][i - c.events] == t;
        }
      }
    }
  }

  /** A new connection has heard of nothing, matches nothing and has everything announced from now on before it. */
  lemma NewConnectionIsFresh(bus: Bus, counted: bool, queueCapacity: nat, t: Topic)
    ensures var c := NewConn(bus, counted, queueCapacity);
            && !SubCheck(c.subs, t) && t !in c.streams && !Pending(bus, c, t) && c.sent == [] && c.queued == 0
            && Pending(bus.(created := bus.created + [t]), c, t)
            && c.queueCapacity == queueCapacity && c.open && (c.subs.Counted? <==> counted)
  {
    NoSubsMatchNothing(counted, t);
    assert (bus.created + [t])[|bus.created|] == t;
  }
}
