/** That the broker does not get stuck: which steps are open to a connection, and that it can always finish what it is
    doing and catch up with everything there is. */
module BrokerProgress {
  import opened Options
  import opened Subscriptions
  import opened Broker
  import opened BrokerInvariant
  import opened BrokerTheorems
  import opened BrokerRuns
  import opened BrokerEffects

  // ---------------------------------------------------------------------------
  // Open steps

  /** A connection in the middle of something can go on, except for a live message that has to wait for room. */
  lemma BusyGoesOn(s: System, id: nat)
    requires ReachableConn(s, id)
    ensures var pc := s.conns[id].pc;
            && (pc.Listing? ==> exists found :: Possible(s, Run(id, FinishListing(found))))
            && (pc.Subscribing? ==> Possible(s, Run(id, NextTopic)) || Possible(s, Run(id, FinishSubscribing)))
            && (pc.Seeding? ==> Possible(s, Run(id, Seed)))
            && (pc.Sending? ==> Possible(s, Run(id, SendStep)))
            && (pc.Forwarding? ==>
                  (Possible(s, Run(id, Forward)) <==> s.conns[id].open && s.conns[id].queued < s.conns[id].queueCapacity))
            && (pc.Forwarding? && !s.conns[id].open ==> Possible(s, Disconnect(id)))
  {
    if s.conns[id].pc.Listing? {
      ReachableConnOk(s, id);
      var found := Names(s.bus.topics.Keys);
      assert Possible(s, Run(id, FinishListing(found)));
    }
  }

  lemma {:induction false} Names(topics: set<Topic>) returns (names: seq<Topic>)
    ensures forall t :: t in names <==> t in topics
  {
    if topics == {} {
      names := [];
    } else {
      var t :| t in topics;
      var rest := Names(topics - {t});
      names := [t] + rest;
    }
  }

  /** Between two iterations a connection takes commands and may leave; it can take or skip topic events exactly when
      there are any it has not seen, and messages of a stream exactly when it is not drained. */
  lemma IdleGoesOn(s: System, id: nat, t: Topic)
    requires ReachableConn(s, id) && s.conns[id].pc.Idle?
    ensures forall p :: Possible(s, Run(id, Subscribe(p))) && Possible(s, Run(id, Unsubscribe(p)))
    ensures forall m :: Possible(s, Run(id, StartPublish(t, m)))
    ensures Possible(s, Run(id, StartCreate(t))) && Possible(s, Disconnect(id))
    ensures Possible(s, Run(id, TakeEvent)) || Possible(s, Run(id, LagEvents)) <==> s.conns[id].events < |s.bus.created|
    ensures t in s.conns[id].streams ==>
      (Possible(s, Run(id, TakeMessage(t))) || Possible(s, Run(id, LagStream(t))) <==>
         s.conns[id].streams[t].cursor < |Log(s.bus, t)|)
  {
    CommandsOpen(s.bus, s.conns[id], t);
    IdleBus(s, id);
    EventsOpen(s.bus, s.conns[id]);
    if t in s.conns[id].streams {
      ReachableStream(s, id, t);
      StreamGoesOn(s.bus, s.conns[id], t);
    }
  }

  lemma IdleBus(s: System, id: nat)
    requires ReachableConn(s, id)
    ensures s.bus.capacity >= 1 && s.conns[id].events <= |s.bus.created|
  {
    ReachableConnOk(s, id);
  }

  lemma CommandsOpen(bus: Bus, c: Conn, t: Topic)
    requires c.pc.Idle?
    ensures forall p :: Enabled(bus, c, Subscribe(p)) && Enabled(bus, c, Unsubscribe(p))
    ensures forall m :: Enabled(bus, c, StartPublish(t, m))
    ensures Enabled(bus, c, StartCreate(t))
  {
  }

  lemma EventsOpen(bus: Bus, c: Conn)
    requires c.pc.Idle? && bus.capacity >= 1 && c.events <= |bus.created|
    ensures Enabled(bus, c, TakeEvent) || Enabled(bus, c, LagEvents) <==> c.events < |bus.created|
  {
  }

  lemma StreamGoesOn(bus: Bus, c: Conn, t: Topic)
    requires bus.capacity >= 1 && c.pc.Idle? && t in c.streams && StreamOk(bus, c, t) && TopicOk(bus, t)
    ensures Enabled(bus, c, TakeMessage(t)) || Enabled(bus, c, LagStream(t)) <==> c.streams[t].cursor < |Log(bus, t)|
  {
  }

  // ---------------------------------------------------------------------------
  // Finishing and catching up

  /** The connection's own steps lead here; its client still listens, and nobody else is involved. */
  ghost predicate GetsTo(bus: Bus, c: Conn, o: Outcome) {
    && (exists steps :: Leads(bus, c, steps, o))
    && BusOk(o.bus) && ConnOk(o.bus, o.conn)
    && o.conn.open == c.open && o.conn.queueCapacity == c.queueCapacity
  }

  lemma GetsNowhere(bus: Bus, c: Conn)
    requires BusOk(bus) && ConnOk(bus, c)
    ensures GetsTo(bus, c, Outcome(bus, c))
  {
    assert Leads(bus, c, [], Outcome(bus, c));
  }

  lemma GetsOn(bus: Bus, c: Conn, n: Outcome, o: Outcome)
    requires GetsTo(bus, c, n) && GetsTo(n.bus, n.conn, o)
    ensures GetsTo(bus, c, o)
  {
    var steps :| Leads(bus, c, steps, n);
    var rest :| Leads(n.bus, n.conn, rest, o);
    LeadsOn(bus, c, steps, n, rest, o);
  }

  lemma GetsByStep(bus: Bus, c: Conn, step: Step)
    requires BusOk(bus) && ConnOk(bus, c) && Enabled(bus, c, step) && !step.ClientCloses?
    ensures GetsTo(bus, c, Do(bus, c, step))
  {
    OneStep(bus, c, step);
    LeadsOk(bus, c, [step], Do(bus, c, step));
    QueueLedger(bus, c, step);
  }

  /** The client takes messages until there is room. */
  lemma {:induction false} MakeRoom(bus: Bus, c: Conn) returns (o: Outcome)
    requires BusOk(bus) && ConnOk(bus, c) && c.queueCapacity > 0
    ensures GetsTo(bus, c, o) && o.bus == bus && o.conn == c.(queued := o.conn.queued)
    ensures o.conn.queued < c.queueCapacity
    decreases c.queued
  {
    if c.queued < c.queueCapacity {
      o := Outcome(bus, c);
      GetsNowhere(bus, c);
    } else {
      GetsByStep(bus, c, ClientTakes);
      var n := Do(bus, c, ClientTakes);
      ClientShape(bus, c, ClientTakes);
      o := MakeRoom(n.bus, n.conn);
      GetsOn(bus, c, n, o);
    }
  }

  lemma VisitedKeeps(bus: Bus, c: Conn, t: Topic, rest: seq<Topic>)
    ensures var c' := Visited(bus, c, t, rest);
            c'.events == c.events && c'.open == c.open && c'.queueCapacity == c.queueCapacity
  {
  }

  lemma {:induction false} VisitAllKeeps(bus: Bus, c: Conn, todo: seq<Topic>)
    ensures var c' := VisitAll(bus, c, todo);
            c'.pc.Idle? && c'.events == c.events && c'.open == c.open && c'.queueCapacity == c.queueCapacity
    decreases |todo|
  {
    if todo != [] {
      VisitedKeeps(bus, c, todo[0], todo[1..]);
      VisitAllKeeps(bus, Visited(bus, c, todo[0], todo[1..]), todo[1..]);
    }
  }

  lemma FinishVisits(bus: Bus, c: Conn) returns (o: Outcome)
    requires BusOk(bus) && ConnOk(bus, c) && c.pc.Subscribing?
    ensures GetsTo(bus, c, o) && o.bus == bus && o.conn.pc.Idle? && o.conn.events == c.events
  {
    o := Outcome(bus, VisitAll(bus, c, c.pc.todo));
    VisitRun(bus, c, c.pc.todo);
    VisitAllKeeps(bus, c, c.pc.todo);
    LeadsOk(bus, c, VisitSteps(bus, c, c.pc.todo), o);
  }

  lemma {:induction false} FinishSending(bus: Bus, c: Conn) returns (o: Outcome)
    requires BusOk(bus) && ConnOk(bus, c) && c.pc.Sending?
    ensures GetsTo(bus, c, o) && o.conn.pc.Idle?
    decreases StagesLeft(c.pc.stage)
  {
    GetsByStep(bus, c, SendStep);
    SendGoesOn(bus, c);
    var n := DoSend(bus, c);
    if n.conn.pc.Sending? {
      o := FinishSending(n.bus, n.conn);
      GetsOn(bus, c, n, o);
    } else {
      o := n;
    }
  }

  lemma FinishForwarding(bus: Bus, c: Conn) returns (o: Outcome)
    requires BusOk(bus) && ConnOk(bus, c) && c.pc.Forwarding? && c.open && c.queueCapacity > 0
    ensures GetsTo(bus, c, o) && o.bus == bus && o.conn.pc.Idle? && o.conn.events == c.events
    ensures o.conn.streams.Keys == c.streams.Keys
    ensures forall t :: t in c.streams ==> o.conn.streams[t].cursor == c.streams[t].cursor
  {
    var n := MakeRoom(bus, c);
    GetsByStep(bus, n.conn, Forward);
    o := Do(bus, n.conn, Forward);
    GetsOn(bus, c, n, o);
    ForwardKeeps(n.conn);
  }

  lemma ForwardKeeps(c: Conn)
    requires c.pc.Forwarding?
    ensures var c' := ForwardToClient(c);
            && c'.pc.Idle? && c'.events == c.events && c'.streams.Keys == c.streams.Keys
            && forall t :: t in c.streams ==> c'.streams[t].cursor == c.streams[t].cursor
  {
  }

  /** Whatever a connection is doing, it can finish, if its client listens. */
  lemma FinishTask(bus: Bus, c: Conn) returns (o: Outcome)
    requires BusOk(bus) && ConnOk(bus, c) && c.open && c.queueCapacity > 0
    ensures GetsTo(bus, c, o) && o.conn.pc.Idle?
  {
    match c.pc
    case Idle =>
      o := Outcome(bus, c);
      GetsNowhere(bus, c);
    case Listing(_) =>
      var found := Names(bus.topics.Keys);
      GetsByStep(bus, c, FinishListing(found));
      var n := Do(bus, c, FinishListing(found));
      o := FinishVisits(bus, n.conn);
      GetsOn(bus, c, n, o);
    case Subscribing(_) =>
      o := FinishVisits(bus, c);
    case Seeding(_, _, _) =>
      GetsByStep(bus, c, Seed);
      SeedShape(c);
      var n := Do(bus, c, Seed);
      o := FinishVisits(bus, n.conn);
      GetsOn(bus, c, n, o);
    case Forwarding(_, _, _) =>
      o := FinishForwarding(bus, c);
    case Sending(_, _, _) =>
      o := FinishSending(bus, c);
  }

  /** It can take or skip every topic event there is. */
  lemma {:induction false} CatchUpEvents(bus: Bus, c: Conn) returns (o: Outcome)
    requires BusOk(bus) && ConnOk(bus, c) && c.pc.Idle?
    ensures GetsTo(bus, c, o) && o.bus == bus && o.conn.pc.Idle? && o.conn.events == |bus.created|
    decreases |bus.created| - c.events
  {
    if c.events == |bus.created| {
      o := Outcome(bus, c);
      GetsNowhere(bus, c);
    } else if |bus.created| > c.events + bus.capacity {
      GetsByStep(bus, c, LagEvents);
      var n := Do(bus, c, LagEvents);
      o := CatchUpEvents(bus, n.conn);
      GetsOn(bus, c, n, o);
    } else {
      GetsByStep(bus, c, TakeEvent);
      var n := Do(bus, c, TakeEvent);
      var m := FinishVisits(bus, n.conn);
      GetsOn(bus, c, n, m);
      o := CatchUpEvents(bus, m.conn);
      GetsOn(bus, c, m, o);
    }
  }

  ghost predicate Drained(bus: Bus, c: Conn, t: Topic) {
    t in c.streams ==> c.streams[t].cursor == |Log(bus, t)|
  }

  /** It can take or skip every message of a stream, which leaves the other streams where they were. */
  lemma {:induction false} CatchUpStream(bus: Bus, c: Conn, t: Topic) returns (o: Outcome)
    requires BusOk(bus) && ConnOk(bus, c) && c.pc.Idle? && c.open && c.queueCapacity > 0 && t in c.streams
    ensures GetsTo(bus, c, o) && o.bus == bus && o.conn.pc.Idle? && o.conn.events == c.events
    ensures o.conn.streams.Keys == c.streams.Keys && Drained(bus, o.conn, t)
    ensures forall u :: u in c.streams && u != t ==> o.conn.streams[u].cursor == c.streams[u].cursor
    decreases |Log(bus, t)| - c.streams[t].cursor
  {
    assert StreamOk(bus, c, t) && TopicOk(bus, t);
    if c.streams[t].cursor == |Log(bus, t)| {
      o := Outcome(bus, c);
      GetsNowhere(bus, c);
    } else {
      StreamGoesOn(bus, c, t);
      var n := MoveStream(bus, c, t);
      o := CatchUpStream(bus, n.conn, t);
      GetsOn(bus, c, n, o);
    }
  }

  lemma MoveStream(bus: Bus, c: Conn, t: Topic) returns (o: Outcome)
    requires BusOk(bus) && ConnOk(bus, c) && c.pc.Idle? && c.open && c.queueCapacity > 0 && t in c.streams
    requires StreamOk(bus, c, t) && (Enabled(bus, c, TakeMessage(t)) || Enabled(bus, c, LagStream(t)))
    ensures GetsTo(bus, c, o) && o.bus == bus && o.conn.pc.Idle? && o.conn.events == c.events
    ensures MovedOn(bus, c, o.conn, t)
  {
    if Enabled(bus, c, LagStream(t)) {
      o := LagOn(bus, c, t);
    } else {
      o := TakeOn(bus, c, t);
    }
  }

  lemma LagOn(bus: Bus, c: Conn, t: Topic) returns (o: Outcome)
    requires BusOk(bus) && ConnOk(bus, c) && c.pc.Idle? && t in c.streams
    requires StreamOk(bus, c, t) && Enabled(bus, c, LagStream(t))
    ensures GetsTo(bus, c, o) && o.bus == bus && o.conn.pc.Idle? && o.conn.events == c.events
    ensures MovedOn(bus, c, o.conn, t)
  {
    GetsByStep(bus, c, LagStream(t));
    LagsTo(bus, c, t);
    o := Do(bus, c, LagStream(t));
    assert bus.capacity >= 1;
    MovedTo(bus, c, o.conn, t);
  }

  lemma TakeOn(bus: Bus, c: Conn, t: Topic) returns (o: Outcome)
    requires BusOk(bus) && ConnOk(bus, c) && c.pc.Idle? && c.open && c.queueCapacity > 0 && t in c.streams
    requires StreamOk(bus, c, t) && Enabled(bus, c, TakeMessage(t))
    ensures GetsTo(bus, c, o) && o.bus == bus && o.conn.pc.Idle? && o.conn.events == c.events
    ensures MovedOn(bus, c, o.conn, t)
  {
    GetsByStep(bus, c, TakeMessage(t));
    TakesNext(bus, c, t);
    var n := Do(bus, c, TakeMessage(t));
    MovedTo(bus, c, n.conn, t);
    o := FinishForwarding(bus, n.conn);
    GetsOn(bus, c, n, o);
  }

  /** The stream of t is closer to the end of its log, the others are where they were. */
  ghost predicate MovedOn(bus: Bus, c: Conn, c': Conn, t: Topic) {
    && t in c.streams && c'.streams.Keys == c.streams.Keys
    && c.streams[t].cursor < c'.streams[t].cursor <= |Log(bus, t)|
    && forall u :: u in c.streams && u != t ==> c'.streams[u].cursor == c.streams[u].cursor
  }

  lemma MovedTo(bus: Bus, c: Conn, c': Conn, t: Topic)
    requires t in c.streams && t in c'.streams && c'.streams == c.streams[t := c'.streams[t]]
    requires c.streams[t].cursor < c'.streams[t].cursor <= |Log(bus, t)|
    ensures MovedOn(bus, c, c', t)
  {
  }

  ghost predicate DrainedBut(bus: Bus, c: Conn, behind: set<Topic>) {
    behind <= c.streams.Keys && forall t :: t !in behind ==> Drained(bus, c, t)
  }

  lemma DrainedOneMore(bus: Bus, c: Conn, c': Conn, behind: set<Topic>, t: Topic)
    requires DrainedBut(bus, c, behind) && t in behind && c'.streams.Keys == c.streams.Keys && Drained(bus, c', t)
    requires forall u :: u in c.streams && u != t ==> c'.streams[u].cursor == c.streams[u].cursor
    ensures DrainedBut(bus, c', behind - {t})
  {
    forall u | u !in behind - {t} ensures Drained(bus, c', u) {
      assert u != t ==> Drained(bus, c, u);
    }
  }

  lemma {:induction false} CatchUpStreams(bus: Bus, c: Conn, behind: set<Topic>) returns (o: Outcome)
    requires BusOk(bus) && ConnOk(bus, c) && c.pc.Idle? && c.open && c.queueCapacity > 0
    requires DrainedBut(bus, c, behind)
    ensures GetsTo(bus, c, o) && o.bus == bus && o.conn.pc.Idle? && o.conn.events == c.events
    ensures forall t :: Drained(bus, o.conn, t)
    decreases behind
  {
    if behind == {} {
      o := Outcome(bus, c);
      GetsNowhere(bus, c);
    } else {
      var t :| t in behind;
      var n := CatchUpStream(bus, c, t);
      DrainedOneMore(bus, c, n.conn, behind, t);
      o := CatchUpStreams(bus, n.conn, behind - {t});
      GetsOn(bus, c, n, o);
    }
  }

  // ---------------------------------------------------------------------------
  // Of every reachable state

  lemma ReachableOn(s: System, a: Action)
    requires Reachable(s) && Possible(s, a)
    ensures Reachable(Apply(s, a))
  {
    var trace :| Behaviour(trace) && trace[|trace| - 1] == s;
    var longer := trace + [Apply(s, a)];
    forall i | 0 <= i < |longer| - 1 ensures Next(longer[i], longer[i + 1]) {
      if i < |trace| - 1 {
        assert Next(trace[i], trace[i + 1]);
      }
    }
    assert longer[|longer| - 1] == Apply(s, a);
  }

  lemma {:induction false} ReachableByRun(s: System, id: nat, steps: seq<Step>, o: Outcome)
    requires ReachableConn(s, id) && Leads(s.bus, s.conns[id], steps, o)
    ensures ReachableConn(System(o.bus, s.conns[id := o.conn]), id)
    decreases |steps|
  {
    if steps == [] {
      assert s == System(o.bus, s.conns[id := o.conn]);
    } else {
      ReachableOn(s, Run(id, steps[0]));
      var s' := Apply(s, Run(id, steps[0]));
      ReachableByRun(s', id, steps[1..], o);
      assert s'.conns[id := o.conn] == s.conns[id := o.conn];
    }
  }

  /** From every reachable state a connection whose client listens can, by steps of its own, finish what it is doing,
      see every topic event and drain every stream. Nobody else moves; if nobody else is in the middle of a send, it is
      then settled, so that convergence and agreement apply to it. */
  lemma CanSettle(s: System, id: nat) returns (s': System)
    requires ReachableConn(s, id) && s.conns[id].open && s.conns[id].queueCapacity > 0
    ensures ReachableConn(s', id) && s'.conns.Keys == s.conns.Keys
    ensures forall k :: k in s.conns && k != id ==> s'.conns[k] == s.conns[k]
    ensures s'.conns[id].pc.Idle? && s'.conns[id].events == |s'.bus.created|
    ensures forall t :: Drained(s'.bus, s'.conns[id], t)
    ensures (forall k :: k in s.conns && k != id ==> !s.conns[k].pc.Sending?) ==> Settled(s', id)
  {
    ReachableConnOk(s, id);
    var c := s.conns[id];
    var o1 := FinishTask(s.bus, c);
    var o2 := CatchUpEvents(o1.bus, o1.conn);
    GetsOn(s.bus, c, o1, o2);
    var o := CatchUpStreams(o2.bus, o2.conn, o2.conn.streams.Keys);
    GetsOn(s.bus, c, o2, o);
    var steps :| Leads(s.bus, c, steps, o);
    ReachableByRun(s, id, steps, o);
    s' := System(o.bus, s.conns[id := o.conn]);
  }
}
