/** The invariant over whole behaviours, and what it means for publishers and subscribers. */
module BrokerSafety {
  import opened Options
  import opened Subscriptions
  import opened Broker
  import opened BrokerInvariant

  // ---------------------------------------------------------------------------
  // Every action keeps the invariant

  /** The ways a connection can know of a topic that no publisher is in the middle of creating. */
  ghost predicate LocallyReached(bus: Bus, c: Conn, t: Topic) {
    || t in c.streams
    || t in Todo(c.pc)
    || (c.pc.Listing? && t in c.pc.seen)
    || Pending(bus, c, t)
  }

  lemma PendingKept(bus: Bus, bus': Bus, c: Conn, c': Conn, t: Topic)
    requires Pending(bus, c, t) && bus.created <= bus'.created && c'.events == c.events
    ensures Pending(bus', c', t)
  {
    var i :| c.events <= i < |bus.created| && bus.created[i] == t;
    assert bus'.created[i] == t;
  }

  /** The fields that decide what a connection wants to hear of. */
  ghost predicate SameWishes(c: Conn, c': Conn) {
    c'.events == c.events && c'.subs == c.subs && c'.missed == c.missed && c'.revealed == c.revealed
  }

  lemma TopicStepShape(bus: Bus, c: Conn, step: Step)
    requires Enabled(bus, c, step) && (step.NextTopic? || step.Seed? || step.Forward? || step.SendStep?)
    ensures SameWishes(c, Do(bus, c, step).conn)
  {
    match step
    case NextTopic => NextTopicWishes(bus, c);
    case Seed => SeedWishes(c);
    case Forward =>
    case SendStep => SendShape(bus, c);
  }

  lemma NextTopicWishes(bus: Bus, c: Conn)
    requires Enabled(bus, c, NextTopic)
    ensures SameWishes(c, Do(bus, c, NextTopic).conn)
  {
  }

  lemma SeedWishes(c: Conn)
    requires c.pc.Seeding?
    ensures SameWishes(c, SeedClient(c))
  {
  }

  /** The event cursor has jumped to the oldest retained event, and what it skipped is on record. */
  ghost predicate LaggedEvents(bus: Bus, c: Conn, c': Conn) {
    var n := |bus.created| - bus.capacity;
    && c.events < n && c'.events == n && c'.subs == c.subs && c'.revealed == c.revealed
    && c'.missed == c.missed + Announcements(bus, c.events, n)
    && c'.streams == c.streams && c.pc.Idle? && c'.pc.Idle?
  }

  /** Which steps move the event cursor, the subscriptions and the record of skipped events. */
  lemma StepShape(bus: Bus, c: Conn, step: Step)
    requires Enabled(bus, c, step)
    ensures var c' := Do(bus, c, step).conn;
            && (!step.Subscribe? && !step.Unsubscribe? && !step.TakeEvent? && !step.LagEvents? ==> SameWishes(c, c'))
            && (step.Unsubscribe? ==> c'.events == c.events && c'.missed == c.missed
                                      && c'.subs == SubRemove(c.subs, step.pattern)
                                      && c'.revealed == (c.revealed || BringsBackEmpty(c.subs, step.pattern)))
            && (step.TakeEvent? ==> c'.subs == c.subs && c'.missed == c.missed && c'.revealed == c.revealed)
            && (step.LagEvents? ==> LaggedEvents(bus, c, c'))
            && (step.Subscribe? ==> c'.events == c.events)
  {
    if step.NextTopic? || step.Seed? || step.Forward? || step.SendStep? {
      TopicStepShape(bus, c, step);
    }
  }

  /** A step other than Subscribe never makes a connection want more, and never forgives a skipped event. */
  lemma StepWantsNoMore(bus: Bus, c: Conn, step: Step, t: Topic, c': Conn)
    requires SubsValid(c.subs) && Enabled(bus, c, step) && !step.Subscribe? && c' == Do(bus, c, step).conn
    requires SubCheck(c'.subs, t) && Governed(c', t)
    ensures SubCheck(c.subs, t) && Governed(c, t)
  {
    StepShape(bus, c, step);
    if step.Unsubscribe? {
      RemoveStartsMatchIff(c.subs, step.pattern, t);
    }
  }

  /** Whatever a connection knows of and still wants, it still knows of after its step. */
  lemma StepKeepsReached(bus: Bus, c: Conn, step: Step, t: Topic)
    requires BusOk(bus) && TaskOk(bus, c.pc) && Enabled(bus, c, step) && t in bus.topics && !step.Subscribe?
    requires SubCheck(Do(bus, c, step).conn.subs, t) && t !in Do(bus, c, step).conn.missed && LocallyReached(bus, c, t)
    ensures LocallyReached(Do(bus, c, step).bus, Do(bus, c, step).conn, t)
  {
    if Pending(bus, c, t) {
      StepKeepsPending(bus, c, step, t);
    } else {
      StepKeepsKnown(bus, c, step, t);
    }
  }

  lemma StepKeepsPending(bus: Bus, c: Conn, step: Step, t: Topic)
    requires BusOk(bus) && TaskOk(bus, c.pc) && Enabled(bus, c, step) && Pending(bus, c, t)
    requires t !in Do(bus, c, step).conn.missed
    ensures LocallyReached(Do(bus, c, step).bus, Do(bus, c, step).conn, t)
  {
    if step.TakeEvent? {
      TakeEventReaches(bus, c, t);
    } else if step.LagEvents? {
      StepShape(bus, c, step);
      LagKeepsPending(bus, c, Do(bus, c, step).conn, t);
    } else {
      StepBus(bus, c, step);
      StepShape(bus, c, step);
      PendingKept(bus, Do(bus, c, step).bus, c, Do(bus, c, step).conn, t);
    }
  }

  /** A pending event that the lag did not skip is still pending. */
  lemma LagKeepsPending(bus: Bus, c: Conn, c': Conn, t: Topic)
    requires LaggedEvents(bus, c, c') && Pending(bus, c, t) && t !in c'.missed
    ensures Pending(bus, c', t)
  {
    var i :| c.events <= i < |bus.created| && bus.created[i] == t;
    assert i < c'.events ==> t in Announcements(bus, c.events, c'.events);
  }

  lemma StepKeepsKnown(bus: Bus, c: Conn, step: Step, t: Topic)
    requires TaskOk(bus, c.pc) && Enabled(bus, c, step) && t in bus.topics && !step.Subscribe?
    requires SubCheck(Do(bus, c, step).conn.subs, t)
    requires t in c.streams || t in Todo(c.pc) || (c.pc.Listing? && t in c.pc.seen)
    ensures var c' := Do(bus, c, step).conn; t in c'.streams || t in Todo(c'.pc) || (c'.pc.Listing? && t in c'.pc.seen)
  {
    if step.NextTopic? {
      NextTopicKeepsKnown(bus, c, t);
    } else if step.SendStep? {
      SendShape(bus, c);
    } else if t in c.streams {
      StepKeepsStream(bus, c, step, t);
    } else {
      StepKeepsTask(bus, c, step, t);
    }
  }

  lemma StepKeepsStream(bus: Bus, c: Conn, step: Step, t: Topic)
    requires Enabled(bus, c, step) && !step.Subscribe? && !step.NextTopic? && !step.SendStep?
    requires SubCheck(Do(bus, c, step).conn.subs, t) && t in c.streams
    ensures t in Do(bus, c, step).conn.streams
  {
    if step.Unsubscribe? {
      UnsubscribeKeepsStream(bus, c, step.pattern, t);
    } else if step.Seed? {
      SeedKeepsStreams(c);
    } else if step.Forward? {
      assert Do(bus, c, step).conn.streams.Keys == c.streams.Keys;
    }
  }

  lemma UnsubscribeKeepsStream(bus: Bus, c: Conn, pattern: string, t: Topic)
    requires c.pc.Idle? && t in c.streams && SubCheck(SubRemove(c.subs, pattern), t)
    ensures t in Do(bus, c, Unsubscribe(pattern)).conn.streams
  {
  }

  lemma SeedKeepsStreams(c: Conn)
    requires c.pc.Seeding?
    ensures SeedClient(c).streams.Keys == c.streams.Keys
  {
  }

  lemma StepKeepsTask(bus: Bus, c: Conn, step: Step, t: Topic)
    requires Enabled(bus, c, step) && !step.Subscribe? && !step.NextTopic? && !step.SendStep?
    requires t in Todo(c.pc) || (c.pc.Listing? && t in c.pc.seen)
    ensures var pc := Do(bus, c, step).conn.pc; t in Todo(pc) || (pc.Listing? && t in pc.seen)
  {
    if step.Seed? {
      assert Do(bus, c, step).conn.pc == Subscribing(c.pc.todo);
    }
  }

  lemma NextTopicKeepsKnown(bus: Bus, c: Conn, t: Topic)
    requires TaskOk(bus, c.pc) && Enabled(bus, c, NextTopic) && t in bus.topics && SubCheck(c.subs, t)
    requires t in c.streams || t in c.pc.todo
    ensures var c' := Do(bus, c, NextTopic).conn; t in c'.streams || t in Todo(c'.pc)
  {
    NextTopicShape(bus, c);
    if t in c.pc.todo {
      assert t == c.pc.todo[0] || t in c.pc.todo[1..];
    }
  }

  lemma NextTopicShape(bus: Bus, c: Conn)
    requires Enabled(bus, c, NextTopic)
    ensures var c', u := Do(bus, c, NextTopic).conn, c.pc.todo[0];
            && Todo(c'.pc) == c.pc.todo[1..] && c.streams.Keys <= c'.streams.Keys
            && (SubCheck(c.subs, u) && u in bus.topics ==> u in c'.streams)
  {
  }

  lemma TakeEventReaches(bus: Bus, c: Conn, t: Topic)
    requires Enabled(bus, c, TakeEvent) && Pending(bus, c, t)
    ensures LocallyReached(bus, Do(bus, c, TakeEvent).conn, t)
  {
    var c' := Do(bus, c, TakeEvent).conn;
    var i :| c.events <= i < |bus.created| && bus.created[i] == t;
    if i == c.events {
      assert t in Todo(c'.pc);
    } else {
      assert c'.events <= i;
    }
  }

  /** A task leaves its announcing point only by announcing, and comes to it with every topic it inserts. */
  lemma StepAnnouncing(bus: Bus, c: Conn, step: Step, t: Topic)
    requires Enabled(bus, c, step)
    ensures var o := Do(bus, c, step);
            && (AtAnnounce(c, t) ==> AtAnnounce(o.conn, t) || o.bus.created == bus.created + [t])
            && (t in o.bus.topics && t !in bus.topics ==> AtAnnounce(o.conn, t))
  {
  }

  /** A publisher leaves its announcing point only by announcing; a new topic puts its publisher there. */
  lemma AnnouncingKept(s: System, id: nat, step: Step, t: Topic)
    requires Possible(s, Run(id, step))
    ensures var s' := Apply(s, Run(id, step));
            && (Announcing(s.conns, t) ==> Announcing(s'.conns, t) || s'.bus.created == s.bus.created + [t])
            && (t in s'.bus.topics && t !in s.bus.topics ==> Announcing(s'.conns, t))
  {
    var s' := Apply(s, Run(id, step));
    StepAnnouncing(s.bus, s.conns[id], step, t);
    if Announcing(s.conns, t) {
      var k :| k in s.conns && AtAnnounce(s.conns[k], t);
      if k != id {
        assert AtAnnounce(s'.conns[k], t);
      } else if AtAnnounce(s'.conns[id], t) {
        assert Announcing(s'.conns, t);
      }
    }
    if t in s'.bus.topics && t !in s.bus.topics {
      assert AtAnnounce(s'.conns[id], t);
    }
  }

  lemma OthersCovered(s: System, id: nat, step: Step, k: nat)
    requires Inv(s) && Possible(s, Run(id, step)) && k in s.conns && k != id
    ensures Covered(Apply(s, Run(id, step)), s.conns[k])
  {
    var s', d := Apply(s, Run(id, step)), s.conns[k];
    StepBus(s.bus, s.conns[id], step);
    forall t | t in s'.bus.topics && SubCheck(d.subs, t) && Governed(d, t)
      ensures Reached(s', d, t) {
      AnnouncingKept(s, id, step, t);
      if t in s.bus.topics {
        assert Reached(s, d, t);
        if Pending(s.bus, d, t) {
          PendingKept(s.bus, s'.bus, d, d, t);
        }
        if s'.bus.created == s.bus.created + [t] {
          assert s'.bus.created[|s.bus.created|] == t;
        }
      }
    }
  }

  lemma MoverCovered(s: System, id: nat, step: Step)
    requires Inv(s) && Possible(s, Run(id, step))
    ensures var s' := Apply(s, Run(id, step)); Covered(s', s'.conns[id])
  {
    var s', c := Apply(s, Run(id, step)), s.conns[id];
    var c' := s'.conns[id];
    StepBus(s.bus, c, step);
    forall t | t in s'.bus.topics && SubCheck(c'.subs, t) && Governed(c', t)
      ensures Reached(s', c', t) {
      AnnouncingKept(s, id, step, t);
      if t in s.bus.topics && !step.Subscribe? {
        MoverReaches(s, id, step, t);
      }
    }
  }

  lemma MoverReaches(s: System, id: nat, step: Step, t: Topic)
    requires Inv(s) && Possible(s, Run(id, step)) && t in s.bus.topics && !step.Subscribe?
    requires var c' := Do(s.bus, s.conns[id], step).conn;
             SubCheck(c'.subs, t) && Governed(c', t)
    ensures var s' := Apply(s, Run(id, step)); Reached(s', s'.conns[id], t)
  {
    var s', c := Apply(s, Run(id, step)), s.conns[id];
    var o := Do(s.bus, c, step);
    assert s'.conns[id] == o.conn && s'.bus == o.bus;
    StepWantsNoMore(s.bus, c, step, t, o.conn);
    assert Reached(s, c, t);
    if LocallyReached(s.bus, c, t) {
      assert LocallyReached(o.bus, o.conn, t) by {
        StepKeepsReached(s.bus, c, step, t);
      }
    } else {
      AnnouncingKept(s, id, step, t);
      if s'.bus.created == s.bus.created + [t] {
        AnnouncedPending(s.bus, s'.bus, c, s'.conns[id], step, t);
      }
    }
  }

  /** The publisher itself hears of the topic it announces. */
  lemma AnnouncedPending(bus: Bus, bus': Bus, c: Conn, c': Conn, step: Step, t: Topic)
    requires Enabled(bus, c, step) && c.events <= |bus.created| && bus'.created == bus.created + [t]
    requires bus' == Do(bus, c, step).bus && c' == Do(bus, c, step).conn
    ensures Pending(bus', c', t)
  {
    assert step.SendStep?;
    assert c'.events == c.events;
    assert bus'.created[|bus.created|] == t;
  }

  lemma RunInv(s: System, id: nat, step: Step)
    requires Inv(s) && Possible(s, Run(id, step))
    ensures Inv(Apply(s, Run(id, step)))
  {
    var s' := Apply(s, Run(id, step));
    StepBus(s.bus, s.conns[id], step);
    StepConn(s.bus, s.conns[id], step);
    MoverCovered(s, id, step);
    forall k | k in s'.conns ensures ConnOk(s'.bus, s'.conns[k]) && Covered(s', s'.conns[k]) {
      if k != id {
        ConnFrame(s.bus, s'.bus, s.conns[k]);
        OthersCovered(s, id, step, k);
      }
    }
    forall t | t in s'.bus.topics ensures t in s'.bus.created || Announcing(s'.conns, t) {
      AnnouncingKept(s, id, step, t);
      if s'.bus.created == s.bus.created + [t] {
        assert s'.bus.created[|s.bus.created|] == t;
      }
    }
  }

  lemma NewConnOk(bus: Bus, counted: bool, queueCapacity: nat)
    requires BusOk(bus)
    ensures ConnOk(bus, NewConn(bus, counted, queueCapacity))
  {
    NoSubsMatchNothing(counted, []);
  }

  lemma ConnectInv(s: System, id: nat, counted: bool, queueCapacity: nat)
    requires Inv(s) && Possible(s, Connect(id, counted, queueCapacity))
    ensures Inv(Apply(s, Connect(id, counted, queueCapacity)))
  {
    var s' := Apply(s, Connect(id, counted, queueCapacity));
    NewConnOk(s.bus, counted, queueCapacity);
    forall t | Announcing(s.conns, t) ensures Announcing(s'.conns, t) {
      var k :| k in s.conns && AtAnnounce(s.conns[k], t);
      assert AtAnnounce(s'.conns[k], t);
    }
    forall k | k in s'.conns ensures ConnOk(s'.bus, s'.conns[k]) && Covered(s', s'.conns[k]) {
      if k == id {
        forall t ensures !SubCheck(s'.conns[k].subs, t) {
          NoSubsMatchNothing(counted, t);
        }
      } else {
        CoveredStill(s, s', s.conns[k]);
      }
    }
  }

  /** Coverage of a bystander when connections come and go. */
  lemma CoveredStill(s: System, s': System, d: Conn)
    requires Covered(s, d) && s'.bus == s.bus && forall t :: Announcing(s.conns, t) ==> Announcing(s'.conns, t)
    ensures Covered(s', d)
  {
    forall t | t in s'.bus.topics && SubCheck(d.subs, t) && Governed(d, t)
      ensures Reached(s', d, t) {
      assert Reached(s, d, t);
    }
  }

  lemma AnnouncingWithout(conns: map<nat, Conn>, id: nat)
    requires id in conns && !conns[id].pc.Sending?
    ensures forall t :: Announcing(conns, t) ==> Announcing(conns - {id}, t)
  {
    forall t | Announcing(conns, t) ensures Announcing(conns - {id}, t) {
      var k :| k in conns && AtAnnounce(conns[k], t);
      assert k in conns - {id} && AtAnnounce((conns - {id})[k], t);
    }
  }

  lemma DisconnectInv(s: System, id: nat)
    requires Inv(s) && Possible(s, Disconnect(id))
    ensures Inv(Apply(s, Disconnect(id)))
  {
    var s' := Apply(s, Disconnect(id));
    AnnouncingWithout(s.conns, id);
    forall k | k in s'.conns ensures ConnOk(s'.bus, s'.conns[k]) && Covered(s', s'.conns[k]) {
      CoveredStill(s, s', s.conns[k]);
    }
  }

  /** Every action of every connection keeps the invariant. */
  lemma ActionInv(s: System, a: Action)
    requires Inv(s) && Possible(s, a)
    ensures Inv(Apply(s, a)) && Grows(s.bus, Apply(s, a).bus)
  {
    match a
    case Connect(id, counted, capacity) => ConnectInv(s, id, counted, capacity);
    case Disconnect(id) => DisconnectInv(s, id);
    case Run(id, step) =>
      RunInv(s, id, step);
      StepBus(s.bus, s.conns[id], step);
  }

  /** The invariant holds throughout every behaviour. */
  lemma {:induction false} Safety(trace: seq<System>, i: nat)
    requires Behaviour(trace) && i < |trace|
    ensures Inv(trace[i])
  {
    if i > 0 {
      Safety(trace, i - 1);
      assert Next(trace[i - 1], trace[i - 1 + 1]);
      var a :| Possible(trace[i - 1], a) && trace[i] == Apply(trace[i - 1], a);
      ActionInv(trace[i - 1], a);
    }
  }
}
