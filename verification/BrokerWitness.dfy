/** Reachable states in which a promise of the broker fails, one for each exception its theorems make: a skipped
    topic event, the empty topic brought back, a topic subscribed twice, a dropped retained message, a lagging stream
    and a hidden pattern. */
module BrokerWitness {
  import opened Options
  import opened Patterns
  import opened Counts
  import opened Operations
  import opened Subscriptions
  import opened Broker
  import opened BrokerInvariant
  import opened BrokerTheorems
  import opened BrokerRuns
  import opened BrokerProgress
  import Written

  // ---------------------------------------------------------------------------
  // Systems of one connection

  /** The system of one connection is in a reachable state. */
  ghost predicate Alone(bus: Bus, c: Conn) {
    Reachable(System(bus, map[0 := c]))
  }

  lemma MoveOn(bus: Bus, c: Conn, steps: seq<Step>, o: Outcome)
    requires Alone(bus, c) && Leads(bus, c, steps, o)
    ensures Alone(o.bus, o.conn)
  {
    ReachableByRun(System(bus, map[0 := c]), 0, steps, o);
    assert map[0 := c][0 := o.conn] == map[0 := o.conn];
  }

  lemma Move(bus: Bus, c: Conn, step: Step)
    requires Alone(bus, c) && Enabled(bus, c, step)
    ensures Alone(Do(bus, c, step).bus, Do(bus, c, step).conn)
  {
    OneStep(bus, c, step);
    MoveOn(bus, c, [step], Do(bus, c, step));
  }

  lemma AloneOk(bus: Bus, c: Conn)
    requires Alone(bus, c)
    ensures BusOk(bus) && ConnOk(bus, c)
  {
    ReachableConnOk(System(bus, map[0 := c]), 0);
  }

  const NO_TOPICS: Bus := Bus(1, map[], [], [])

  lemma Begin(counted: bool, queueCapacity: nat)
    ensures Alone(NO_TOPICS, NewConn(NO_TOPICS, counted, queueCapacity))
  {
    var s := System(NO_TOPICS, map[]);
    assert Behaviour([s]) && [s][|[s]| - 1] == s;
    ReachableOn(s, Connect(0, counted, queueCapacity));
    assert Apply(s, Connect(0, counted, queueCapacity)).conns == map[0 := NewConn(NO_TOPICS, counted, queueCapacity)];
  }

  /** The connection publishes. */
  lemma Publish(bus: Bus, c: Conn, t: Topic, m: Message) returns (bus': Bus)
    requires Alone(bus, c) && c.pc.Idle?
    ensures Alone(bus', c) && bus'.topics.Keys == bus.topics.Keys + {t} && bus'.capacity == bus.capacity
    ensures bus'.created == bus.created + if t in bus.topics then [] else [t]
    ensures Log(bus', t) == Log(bus, t) + [m] && bus'.topics[t].lastMessage == Some(m)
    ensures t in bus.topics ==> bus'.topics[t].sender == bus.topics[t].sender
    ensures bus'.topics[t].sender < |bus'.channels|
  {
    AloneOk(bus, c);
    PublishAlone(bus, c, t, m);
    bus' := Appended(Created(bus, t), t, m);
    MoveOn(bus, c, PublishSteps(bus, t, m), Outcome(bus', c));
  }

  /** It hears of a topic it does not match. */
  lemma HearUnmatched(bus: Bus, c: Conn, t: Topic)
    requires Alone(bus, c) && c.pc.Idle? && c.events == 0 && !SubCheck(c.subs, t)
    requires bus.capacity == 1 && bus.created == [t]
    ensures Alone(bus, c.(events := 1))
  {
    EventAlone(bus, c);
    assert [t][1..] == [];
    assert VisitAll(bus, Told(bus, c), [t]) == c.(events := 1);
    MoveOn(bus, c, EventSteps(bus, c), Outcome(bus, c.(events := 1)));
  }

  /** It adds a pattern that brings no stream. */
  lemma SubscribeQuietly(bus: Bus, c: Conn, pattern: string, names: seq<Topic>)
    requires Alone(bus, c) && c.pc.Idle? && |names| <= 1 && forall u :: u in names <==> u in bus.topics
    requires forall u :: u in names ==> u in c.streams || !SubCheck(SubInsert(c.subs, pattern), u)
    ensures Alone(bus, Subscribed(c, pattern, names).(pc := Idle))
  {
    SubscribeAlone(bus, c, pattern, names);
    var c1 := Subscribed(c, pattern, names);
    if names != [] {
      assert names[0] in names && names[1..] == [];
      assert Visited(bus, c1, names[0], []) == c1.(pc := Subscribing([]));
    }
    assert VisitAll(bus, c1, names) == c1.(pc := Idle);
    MoveOn(bus, c, SubscribeSteps(bus, c, pattern, names), Outcome(bus, c1.(pc := Idle)));
  }

  /** It subscribes to the only topic there is, which has a retained message. */
  lemma SubscribeSeeded(bus: Bus, c: Conn, pattern: string, t: Topic, m: Message) returns (c': Conn)
    requires Alone(bus, c) && c.pc.Idle? && c.open && bus.topics.Keys == {t} && t !in c.streams
    requires SubCheck(SubInsert(c.subs, pattern), t) && bus.topics[t].lastMessage == Some(m)
    ensures Alone(bus, c') && Seeded(bus, c, c', pattern, t, m)
  {
    SubscribeAlone(bus, c, pattern, [t]);
    var c1 := Subscribed(c, pattern, [t]);
    assert [t][1..] == [];
    c' := Visited(bus, c1, t, []).(pc := Idle);
    VisitedShape(bus, c1, t, []);
    assert VisitAll(bus, c1, [t]) == c';
    MoveOn(bus, c, SubscribeSteps(bus, c, pattern, [t]), Outcome(bus, c'));
    SeededByVisit(bus, c, pattern, t, m);
  }

  ghost predicate Seeded(bus: Bus, c: Conn, c': Conn, pattern: string, t: Topic, m: Message) {
    var room, ep := c.queued < c.queueCapacity, |c.episodes|;
    && t in bus.topics && t in c'.streams
    && c'.streams == c.streams[t := Stream(bus.topics[t].sender, |Log(bus, t)|, ep,
                                            if room then InStep else SeedDropped)]
    && c'.sent == c.sent + (if room then [Delivery(t, |Log(bus, t)| - 1, m, ep)] else [])
    && c'.queued == c.queued + (if room then 1 else 0) && |c'.episodes| == ep + 1
    && c'.subs == SubInsert(c.subs, pattern) && c'.pc.Idle? && c'.open && c'.missed == {} && !c'.revealed
    && c'.events == c.events && c'.queueCapacity == c.queueCapacity
  }

  lemma SeededByVisit(bus: Bus, c: Conn, pattern: string, t: Topic, m: Message)
    requires t in bus.topics && t !in c.streams && c.open
    requires SubCheck(SubInsert(c.subs, pattern), t) && bus.topics[t].lastMessage == Some(m)
    ensures Seeded(bus, c, Visited(bus, Subscribed(c, pattern, [t]), t, []).(pc := Idle), pattern, t, m)
  {
  }

  /** It removes a pattern and with it every stream. */
  lemma UnsubscribeAll(bus: Bus, c: Conn, pattern: string)
    requires Alone(bus, c) && c.pc.Idle? && forall t :: t in c.streams ==> !SubCheck(SubRemove(c.subs, pattern), t)
    ensures Alone(bus, c.(subs := SubRemove(c.subs, pattern), hidden := false, streams := map[],
                          revealed := c.revealed || BringsBackEmpty(c.subs, pattern)))
  {
    Move(bus, c, Unsubscribe(pattern));
    assert Do(bus, c, Unsubscribe(pattern)).conn.streams == map[];
  }

  // ---------------------------------------------------------------------------
  // As written, coverage of the empty topic

  /** As written, subscribe to "" and to "a", create the topic "", unsubscribe from "a" twice: the connection is
      settled and matches the topic "", but has no stream for it and no way of hearing of it. */
  lemma CoverageFailsForEmptyTopic()
    ensures exists s, id :: ReachableConn(s, id) && Settled(s, id) && Uncovered(s, id, "")
  {
    var bus, c := EmptyTopicCreated();
    UnsubscribeTwice(bus, c);
  }

  lemma EmptyTopicCreated() returns (bus: Bus, c: Conn)
    ensures Alone(bus, c) && c.pc.Idle? && c.missed == {} && c.events == 1 && c.streams == map[]
    ensures bus.created == [""] && "" in bus.topics
    ensures c.subs == AsWritten(Inserted(Inserted(EMPTY, ""), "a"))
  {
    EmptyUnmatched();
    var c2 := BothSubscribed();
    CreateAlone(NO_TOPICS, c2, "");
    bus := Created(NO_TOPICS, "");
    MoveOn(NO_TOPICS, c2, CreateSteps(NO_TOPICS, ""), Outcome(bus, c2));
    HearUnmatched(bus, c2, "");
    c := c2.(events := 1);
  }

  lemma BothSubscribed() returns (c: Conn)
    ensures Alone(NO_TOPICS, c) && c.pc.Idle? && c.missed == {} && c.events == 0 && c.streams == map[]
    ensures c.subs == AsWritten(Inserted(Inserted(EMPTY, ""), "a"))
  {
    Begin(false, 1);
    var c0 := NewConn(NO_TOPICS, false, 1);
    SubscribeQuietly(NO_TOPICS, c0, "", []);
    var c1 := Subscribed(c0, "", []).(pc := Idle);
    SubscribeQuietly(NO_TOPICS, c1, "a", []);
    c := Subscribed(c1, "a", []).(pc := Idle);
  }

  lemma UnsubscribeTwice(bus: Bus, c: Conn)
    requires Alone(bus, c) && c.pc.Idle? && c.missed == {} && c.events == 1 && bus.created == [""] && "" in bus.topics
    requires c.streams == map[] && c.subs == AsWritten(Inserted(Inserted(EMPTY, ""), "a"))
    ensures exists s, id :: ReachableConn(s, id) && Settled(s, id) && Uncovered(s, id, "")
  {
    EmptyUnmatched();
    UnsubscribeAll(bus, c, "a");
    var c1 := c.(subs := SubRemove(c.subs, "a"), hidden := false, revealed := c.revealed || BringsBackEmpty(c.subs, "a"));
    UnsubscribeAll(bus, c1, "a");
    NothingPending(bus, c1.(subs := SubRemove(c1.subs, "a"), revealed := c1.revealed || BringsBackEmpty(c1.subs, "a")));
  }

  lemma NothingPending(bus: Bus, c: Conn)
    requires Alone(bus, c) && c.pc.Idle? && c.missed == {} && c.events == |bus.created| && "" in bus.topics
    requires c.streams == map[] && SubCheck(c.subs, "")
    ensures exists s, id :: ReachableConn(s, id) && Settled(s, id) && Uncovered(s, id, "")
  {
    var s := System(bus, map[0 := c]);
    assert ReachableConn(s, 0) && Settled(s, 0);
    assert !Reached(s, c, "");
    assert Uncovered(s, 0, "");
  }

  /** The patterns "" and "a", and what two removals of "a" make of them. */
  lemma EmptyUnmatched()
    ensures var t := Inserted(Inserted(EMPTY, ""), "a");
            !Check(t, "") && Check(Written.Exec(Written.Exec(t, Remove("a")), Remove("a")), "")
  {
    var t := Inserted(Inserted(EMPTY, ""), "a");
    Written.RootHiddenByOne();
    Written.RootAfterTwoRemoves(t);
    Written.OnlyEmptyMatchesEmpty(t);
  }

  // ---------------------------------------------------------------------------
  // Skipped topic events

  /** It creates a topic. */
  lemma CreateTopic(bus: Bus, c: Conn, t: Topic) returns (bus': Bus)
    requires Alone(bus, c) && c.pc.Idle? && t !in bus.topics
    ensures Alone(bus', c) && bus'.topics.Keys == bus.topics.Keys + {t} && bus'.capacity == bus.capacity
    ensures bus'.created == bus.created + [t]
  {
    AloneOk(bus, c);
    CreateAlone(bus, c, t);
    bus' := Created(bus, t);
    MoveOn(bus, c, CreateSteps(bus, t), Outcome(bus', c));
  }

  /** With room for one topic event, subscribe to "a", create "a" and then "bb": the event of "a" is skipped, and the
      connection, settled, matches the topic "a" without a stream for it or any way of hearing of it. */
  lemma SkippedEventIsLost()
    ensures exists s, id, t :: ReachableConn(s, id) && Settled(s, id) && s.conns[id].subs.Counted? && Uncovered(s, id, t)
  {
    var c0 := NewConn(NO_TOPICS, true, 1);
    Begin(true, 1);
    SubscribeQuietly(NO_TOPICS, c0, "a", []);
    var c1 := Subscribed(c0, "a", []).(pc := Idle);
    var bus1 := CreateTopic(NO_TOPICS, c1, "a");
    var bus := CreateTopic(bus1, c1, "bb");
    assert bus.created == ["a", "bb"];
    Move(bus, c1, LagEvents);
    var c2 := Do(bus, c1, LagEvents).conn;
    LastEventTaken(bus, c2);
  }

  lemma LastEventTaken(bus: Bus, c: Conn)
    requires Alone(bus, c) && c.pc.Idle? && c.events == 1 && bus.capacity == 1 && bus.created == ["a", "bb"]
    requires c.streams == map[] && c.subs == SubInsert(Counted(multiset{}), "a") && "a" in bus.topics
    ensures exists s, id, t :: ReachableConn(s, id) && Settled(s, id) && s.conns[id].subs.Counted? && Uncovered(s, id, t)
  {
    MatchesA();
    OnlyAMatches();
    EventAlone(bus, c);
    var c' := c.(events := 2);
    assert ["bb"][1..] == [];
    assert VisitAll(bus, Told(bus, c), ["bb"]) == c';
    MoveOn(bus, c, EventSteps(bus, c), Outcome(bus, c'));
    var s := System(bus, map[0 := c']);
    assert ReachableConn(s, 0) && Settled(s, 0);
    assert !Reached(s, c', "a");
    assert Uncovered(s, 0, "a");
  }

  lemma OnlyAMatches()
    ensures !SubCheck(SubInsert(Counted(multiset{}), "a"), "bb")
  {
    assert multiset{} + multiset{"a"} == multiset{"a"};
    if Matches("a", "bb") {
      MatchesUnfold("a", "bb");
    }
  }

  // ---------------------------------------------------------------------------
  // At most once, and the dropped retained message

  /** Publish on "a", subscribe to "a" and unsubscribe again. */
  lemma SubscribedOnce(queueCapacity: nat) returns (bus: Bus, c: Conn)
    requires queueCapacity > 0
    ensures Alone(bus, c) && c.pc.Idle? && c.open && c.missed == {} && c.streams == map[]
    ensures c.subs == Counted(multiset{}) && c.queued == 1 && c.queueCapacity == queueCapacity
    ensures c.sent == [Delivery("a", 0, [1], 0)] && |c.episodes| == 1 && c.events == 1
    ensures bus.topics.Keys == {"a"} && bus.created == ["a"] && bus.capacity == 1
    ensures Log(bus, "a") == [[1]] && bus.topics["a"].lastMessage == Some([1])
  {
    var c0 := NewConn(NO_TOPICS, true, queueCapacity);
    Begin(true, queueCapacity);
    NoSubsMatchNothing(true, "a");
    bus := Publish(NO_TOPICS, c0, "a", [1]);
    HearUnmatched(bus, c0, "a");
    MatchesA();
    var c1 := SubscribeSeeded(bus, c0.(events := 1), "a", "a", [1]);
    assert c1.subs == Counted(multiset{"a"});
    assert multiset{"a"} - multiset{"a"} == multiset{};
    UnsubscribeAll(bus, c1, "a");
    c := c1.(subs := SubRemove(c1.subs, "a"), hidden := false, streams := map[],
             revealed := c1.revealed || BringsBackEmpty(c1.subs, "a"));
  }

  lemma MatchesA()
    ensures SubCheck(SubInsert(Counted(multiset{}), "a"), "a")
  {
    Written.MatchesItself('a');
    assert multiset{} + multiset{"a"} == multiset{"a"};
  }

  /** The client of connection id was sent one entry of a log twice. */
  ghost predicate SentTwice(s: System, id: nat, j: nat, k: nat) {
    && id in s.conns && j < k < |s.conns[id].sent|
    && var e, f := s.conns[id].sent[j], s.conns[id].sent[k];
       e.topic == f.topic && e.index == f.index && e.message == f.message
  }

  /** Publish on "a", subscribe to "a", unsubscribe, subscribe again: the one message is enqueued twice. */
  lemma ResubscriptionRepeats()
    ensures exists s, id, j, k :: ReachableConn(s, id) && SentTwice(s, id, j, k)
  {
    var bus, c := SubscribedOnce(2);
    MatchesA();
    var c' := SubscribeSeeded(bus, c, "a", "a", [1]);
    var s := System(bus, map[0 := c']);
    assert c'.sent == [Delivery("a", 0, [1], 0), Delivery("a", 0, [1], 1)];
    assert ReachableConn(s, 0) && SentTwice(s, 0, 0, 1);
  }

  /** A settled connection with the matching stream of t drained is not up to date on t. */
  ghost predicate Behind(s: System, id: nat, t: Topic) {
    && ReachableConn(s, id) && Settled(s, id) && t in s.bus.topics && Log(s.bus, t) != []
    && SubCheck(s.conns[id].subs, t) && Governed(s.conns[id], t)
    && t in s.conns[id].streams && s.conns[id].streams[t].cursor == |Log(s.bus, t)|
    && !UpToDate(s.bus, s.conns[id], t)
  }

  /** With room for one message in the client's queue, publish on "a", subscribe to "a", unsubscribe, publish again,
      subscribe again: the second message is dropped, and the connection, settled and drained, is left with the first. */
  lemma DroppedMessageIsMissed()
    ensures exists s, id, t :: Behind(s, id, t)
  {
    var bus1, c := SubscribedOnce(1);
    MatchesA();
    var bus := Publish(bus1, c, "a", [2]);
    var c' := SubscribeSeeded(bus, c, "a", "a", [2]);
    var s := System(bus, map[0 := c']);
    assert ReachableConn(s, 0) && Settled(s, 0);
    assert c'.sent == [Delivery("a", 0, [1], 0)] && |Log(bus, "a")| == 2;
    assert Behind(s, 0, "a");
  }

  // ---------------------------------------------------------------------------
  // A lagging stream

  /** The client of connection id was sent an entry and then, in the same episode, one that is not the next. */
  ghost predicate GapIn(s: System, id: nat, k: nat) {
    && id in s.conns && k + 1 < |s.conns[id].sent|
    && var e, f := s.conns[id].sent[k], s.conns[id].sent[k + 1];
       e.topic == f.topic && e.episode == f.episode && e.index + 1 < f.index
  }

  /** With one message retained, subscribe to "a" and publish twice before the stream is polled: the first of the two
      messages is skipped. */
  lemma LagLeavesGap()
    ensures exists s, id, k :: ReachableConn(s, id) && GapIn(s, id, k)
  {
    var bus1, c1 := SubscribedWithMessage();
    var bus2 := Publish(bus1, c1, "a", [2]);
    var bus := Publish(bus2, c1, "a", [3]);
    assert Log(bus, "a") == [[1], [2], [3]];
    Move(bus, c1, LagStream("a"));
    var c2 := Do(bus, c1, LagStream("a")).conn;
    assert c2.streams["a"].cursor == 2 && c2.sent == c1.sent;
    DeliverNext(bus, c2);
  }

  lemma SubscribedWithMessage() returns (bus: Bus, c: Conn)
    ensures Alone(bus, c) && c.pc.Idle? && c.open && c.queued == 1 && c.queueCapacity == 2
    ensures bus.topics.Keys == {"a"} && bus.capacity == 1 && Log(bus, "a") == [[1]]
    ensures c.streams.Keys == {"a"} && c.streams["a"].receiver == bus.topics["a"].sender
    ensures c.streams["a"].cursor == 1 && c.streams["a"].episode == 0
    ensures c.sent == [Delivery("a", 0, [1], 0)]
  {
    var c0 := NewConn(NO_TOPICS, true, 2);
    Begin(true, 2);
    NoSubsMatchNothing(true, "a");
    bus := Publish(NO_TOPICS, c0, "a", [1]);
    HearUnmatched(bus, c0, "a");
    MatchesA();
    c := SubscribeSeeded(bus, c0.(events := 1), "a", "a", [1]);
  }

  lemma DeliverNext(bus: Bus, c: Conn)
    requires Alone(bus, c) && c.pc.Idle? && c.open && c.queued < c.queueCapacity && bus.capacity == 1
    requires "a" in c.streams && c.streams["a"].receiver < |bus.channels|
    requires |bus.channels[c.streams["a"].receiver]| == 3 && c.streams["a"].cursor == 2 && c.streams["a"].episode == 0
    requires c.sent == [Delivery("a", 0, [1], 0)]
    ensures exists s, id, k :: ReachableConn(s, id) && GapIn(s, id, k)
  {
    Move(bus, c, TakeMessage("a"));
    var c1 := Do(bus, c, TakeMessage("a")).conn;
    Move(bus, c1, Forward);
    var c2 := ForwardToClient(c1);
    var s := System(bus, map[0 := c2]);
    assert c2.sent == [Delivery("a", 0, [1], 0), Delivery("a", 2, c1.pc.message, 0)];
    assert ReachableConn(s, 0) && GapIn(s, 0, 0);
  }

  // ---------------------------------------------------------------------------
  // As written, streams of hidden patterns

  /** The connection is about to enqueue a message of a stream whose topic no pattern matches. */
  ghost predicate ForwardsUnmatched(s: System, id: nat) {
    && ReachableConn(s, id) && Possible(s, Run(id, Forward))
    && var c, c' := s.conns[id], Apply(s, Run(id, Forward)).conns[id];
       && |c'.sent| == |c.sent| + 1
       && c'.sent[|c.sent|].topic in c.streams && !SubCheck(c.subs, c'.sent[|c.sent|].topic)
  }

  /** As written, with a topic "a" subscribe to "a", "ab" and "ac": the stream of "a" stays although no pattern
      matches it any more, and what is published on it is still enqueued. */
  lemma HiddenTopicIsDelivered()
    ensures exists s, id :: ForwardsUnmatched(s, id)
  {
    var bus1, c1 := StreamOfHidden();
    var bus := Publish(bus1, c1, "a", [2]);
    Move(bus, c1, TakeMessage("a"));
    var c := Do(bus, c1, TakeMessage("a")).conn;
    var s := System(bus, map[0 := c]);
    assert Apply(s, Run(0, Forward)).conns[0] == ForwardToClient(c);
    assert ForwardsUnmatched(s, 0);
  }

  lemma StreamOfHidden() returns (bus: Bus, c: Conn)
    ensures Alone(bus, c) && c.pc.Idle? && c.open && c.queued == 1 && c.queueCapacity == 2
    ensures bus.capacity == 1 && "a" in bus.topics && "a" in c.streams && !SubCheck(c.subs, "a")
    ensures c.streams["a"].receiver == bus.topics["a"].sender && c.streams["a"].cursor == |Log(bus, "a")|
  {
    var c0 := NewConn(NO_TOPICS, false, 2);
    Begin(false, 2);
    NoSubsMatchNothing(false, "a");
    bus := Publish(NO_TOPICS, c0, "a", [1]);
    HearUnmatched(bus, c0, "a");
    Written.ExtensionsHideTopic();
    var c1 := SubscribeSeeded(bus, c0.(events := 1), "a", "a", [1]);
    SubscribeQuietly(bus, c1, "ab", ["a"]);
    var c2 := Subscribed(c1, "ab", ["a"]).(pc := Idle);
    SubscribeQuietly(bus, c2, "ac", ["a"]);
    c := Subscribed(c2, "ac", ["a"]).(pc := Idle);
  }
}
