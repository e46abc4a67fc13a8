/**
 The bus and the connection handler as objects, with the methods of the server as they run when
 nothing interleaves. Each method is a run of the broker's steps, on the handler's own glob tree.
 */
module Handlers {
  import opened Options
  import opened Counts
  import opened Operations
  import opened GlobTrees
  import opened Patterns
  import opened Subscriptions
  import opened Broker
  import opened BrokerInvariant
  import opened BrokerRuns
  import opened BrokerEffects

  // ---------------------------------------------------------------------------
  // The bus

  lemma CreatedThenAppended(bus: Bus, t: Topic, m: Message)
    requires BusOk(bus)
    ensures BusOk(Created(bus, t)) && t in Created(bus, t).topics
    ensures Created(bus, t).topics[t].sender < |Created(bus, t).channels|
    ensures LogGains(bus, Appended(Created(bus, t), t, m), t, m)
  {
    CreatedOk(bus, t);
    AppendedLogs(Created(bus, t), t, m);
    if t !in bus.topics {
      OpenedLogs(bus, t);
      assert forall u :: Log(Created(bus, t), u) == Log(Opened(bus, t), u);
    }
  }

  class SharedBus {
    const capacity: nat
    var topics: map<Topic, TopicData>
    var channels: seq<seq<Message>>
    var created: seq<Topic>

    ghost function State(): Bus
      reads this
    {
      Bus(capacity, topics, channels, created)
    }

    constructor (capacity: nat)
      requires capacity >= 1
      ensures State() == Bus(capacity, map[], [], []) && BusOk(State())
    {
      this.capacity := capacity;
      topics, channels, created := map[], [], [];
    }

    /** Creates a topic and announces it, unless it exists. */
    method CreateTopic(name: Topic) returns (isNew: bool)
      requires BusOk(State())
      modifies this
      ensures isNew <==> name !in old(topics)
      ensures State() == Created(old(State()), name) && BusOk(State())
    {
      CreatedOk(State(), name);
      if name in topics {
        return false;
      }
      topics, channels := topics[name := TopicData(|channels|, None)], channels + [[]];
      created := created + [name];
      return true;
    }

    /** Retains and broadcasts a message, creating the topic if need be. */
    method Send(name: Topic, message: Message) returns (result: Result)
      requires BusOk(State())
      modifies this
      ensures result == Ok && BusOk(State())
      ensures forall c: Conn :: c.pc.Idle? ==>
                Leads(old(State()), c, PublishSteps(old(State()), name, message), Outcome(State(), c))
      ensures LogGains(old(State()), State(), name, message)
    {
      ghost var before := State();
      CreatedOk(before, name);
      if name !in topics {
        var _ := CreateTopic(name);
      }
      if name !in topics {
        return Err("Topic not found");
      }
      AppendMessage(name, message);
      forall c: Conn | c.pc.Idle?
        ensures Leads(before, c, PublishSteps(before, name, message), Outcome(State(), c)) {
        PublishAlone(before, c, name, message);
      }
      CreatedThenAppended(before, name, message);
      return Ok;
    }

    /** What send does under the topic's guard. */
    method AppendMessage(name: Topic, message: Message)
      requires BusOk(State()) && name in topics && topics[name].sender < |channels|
      modifies this
      ensures BusOk(State()) && State() == Appended(old(State()), name, message)
    {
      AppendLogs(State(), name, message);
      var data := topics[name];
      topics := topics[name := TopicData(data.sender, Some(message))];
      channels := channels[data.sender := channels[data.sender] + [message]];
    }

    /** The names of all topics, each once. */
    method ListTopics() returns (names: seq<Topic>)
      ensures forall t :: t in names <==> t in topics
      ensures |names| == |topics.Keys|
    {
      names := [];
      var rest := topics.Keys;
      while rest != {}
        invariant rest <= topics.Keys && |names| + |rest| == |topics.Keys|
        invariant forall t :: t in names <==> t in topics && t !in rest
        decreases rest
      {
        var t :| t in rest;
        names, rest := names + [t], rest - {t};
      }
    }
  }

  // ---------------------------------------------------------------------------
  // The connection handler

  lemma RestrictedTo(before: map<Topic, Stream>, after: map<Topic, Stream>, subs: Subs)
    requires after.Keys <= before.Keys && forall t :: t in after ==> after[t] == before[t]
    requires forall t :: t in before ==> (t in after <==> SubCheck(subs, t))
    ensures after == map t | t in before && SubCheck(subs, t) :: before[t]
  {
  }

  /** A topic that does not match is passed over. */
  lemma VisitUnmatched(bus: Bus, c: Conn, t: Topic, rest: seq<Topic>)
    requires !SubCheck(c.subs, t)
    ensures Visited(bus, c, t, rest) == c.(pc := Subscribing(rest))
  {
  }

  class ConnectionHandler {
    const bus: SharedBus
    const subscriptions: GlobTree
    const queueCapacity: nat
    var topicStreams: map<Topic, Stream>
    var events: nat
    var queued: nat
    var open: bool
    var sent: seq<Delivery>
    var episodes: seq<Episode>
    ghost var hidden: bool
    ghost var revealed: bool
    ghost var missed: set<Topic>

    /** The handler as a connection of the broker that holds the given patterns. */
    ghost function Local(subs: Subs, pc: Pc): Conn
      reads this
    {
      Conn(subs, hidden, revealed, topicStreams, events, missed, pc, queued, queueCapacity, open, false, sent, episodes)
    }

    /** ... and with the patterns of its own tree. */
    ghost function State(pc: Pc): Conn
      reads this, subscriptions, subscriptions.nodes.Values
    {
      Local(AsWritten(subscriptions.Value()), pc)
    }

    /** The parts the handler does not own are in order. */
    ghost predicate Sound()
      reads this, bus, subscriptions, subscriptions.nodes.Values
    {
      subscriptions.Valid() && BusOk(bus.State())
    }

    /** Between loop iterations the handler satisfies the broker's invariant of a connection. */
    ghost predicate Valid()
      reads this, bus, subscriptions, subscriptions.nodes.Values
    {
      Sound() && ConnOk(bus.State(), State(Idle))
    }

    constructor (bus: SharedBus, queueCapacity: nat)
      requires BusOk(bus.State())
      ensures Valid() && this.bus == bus && fresh(subscriptions) && fresh(subscriptions.nodes.Values)
      ensures State(Idle) == NewConn(bus.State(), false, queueCapacity)
    {
      this.bus := bus;
      this.queueCapacity := queueCapacity;
      subscriptions := new GlobTree();
      topicStreams, events, queued, open, sent, episodes := map[], |bus.created|, 0, true, [], [];
      hidden, revealed, missed := false, false, {};
      new;
      NoSubsMatchNothing(false, []);
      assert State(Idle) == NewConn(bus.State(), false, queueCapacity);
    }

    /** A stream for the topic unless it has one, and the retained message straight to the client. */
    method SubscribeToTopic(name: Topic, ghost subs: Subs, ghost rest: seq<Topic>)
      requires BusOk(bus.State()) && SubCheck(subs, name)
      modifies this`topicStreams, this`episodes, this`sent, this`queued
      ensures Local(subs, Subscribing(rest)) == Visited(bus.State(), old(Local(subs, Subscribing(rest))), name, rest)
    {
      if name in topicStreams || name !in bus.topics {
        return;
      }
      assert TopicOk(bus.State(), name);
      var data := bus.topics[name];
      AddStream(name, data.sender, |bus.channels[data.sender]|);
      if data.lastMessage.Some? {
        SeedQueue(name, data.lastMessage.value, subs, rest);
      }
    }

    /** The new receiver goes into the stream map. */
    method AddStream(name: Topic, receiver: nat, cursor: nat)
      modifies this`topicStreams, this`episodes
      ensures topicStreams == old(topicStreams)[name := Stream(receiver, cursor, |old(episodes)|, InStep)]
      ensures episodes == old(episodes) + [Episode(name, cursor, true)]
    {
      topicStreams := topicStreams[name := Stream(receiver, cursor, |episodes|, InStep)];
      episodes := episodes + [Episode(name, cursor, true)];
    }

    /** try_send of the retained message. */
    method SeedQueue(name: Topic, message: Message, ghost subs: Subs, ghost rest: seq<Topic>)
      requires name in topicStreams && topicStreams[name].episode < |episodes|
      modifies this`topicStreams, this`episodes, this`sent, this`queued
      ensures Local(subs, Subscribing(rest)) == SeedClient(old(Local(subs, Seeding(name, message, rest))))
    {
      var episode := topicStreams[name].episode;
      if open && queued < queueCapacity {
        sent, queued := sent + [Delivery(name, episodes[episode].start - 1, message, episode)], queued + 1;
      } else {
        topicStreams := topicStreams[name := topicStreams[name].(footing := SeedDropped)];
        episodes := episodes[episode := episodes[episode].(clean := false)];
      }
    }

    method IsSubscribed(name: Topic, ghost subs: Subs) returns (matched: bool)
      requires Sound() && subs == AsWritten(subscriptions.Value())
      ensures matched <==> SubCheck(subs, name)
    {
      matched := subscriptions.Check(name);
    }

    /** Subscribing leaves alone what the handler does not own. */
    method SubscribeSoundly(name: Topic, ghost subs: Subs, ghost rest: seq<Topic>)
      requires Sound() && subs == AsWritten(subscriptions.Value()) && SubCheck(subs, name)
      modifies this`topicStreams, this`episodes, this`sent, this`queued
      ensures Sound() && subs == AsWritten(subscriptions.Value())
      ensures Local(subs, Subscribing(rest)) == Visited(bus.State(), old(Local(subs, Subscribing(rest))), name, rest)
    {
      SubscribeToTopic(name, subs, rest);
    }

    /** One round of the loop over topic names: subscribe if the tree matches the name. */
    method VisitTopic(name: Topic, ghost subs: Subs, ghost rest: seq<Topic>)
      requires Sound() && subs == AsWritten(subscriptions.Value())
      modifies this`topicStreams, this`episodes, this`sent, this`queued
      ensures Sound() && subs == AsWritten(subscriptions.Value())
      ensures Local(subs, Subscribing(rest)) == Visited(bus.State(), old(Local(subs, Subscribing(rest))), name, rest)
    {
      var matched := IsSubscribed(name, subs);
      if matched {
        SubscribeSoundly(name, subs, rest);
      } else {
        VisitUnmatched(bus.State(), Local(subs, Subscribing(rest)), name, rest);
      }
    }

    /** The loop of handle_subscribe. */
    method SubscribeToAll(names: seq<Topic>, ghost subs: Subs)
      requires Sound() && subs == AsWritten(subscriptions.Value())
      modifies this`topicStreams, this`episodes, this`sent, this`queued
      ensures Sound() && subs == AsWritten(subscriptions.Value())
      ensures Local(subs, Idle) == VisitAll(bus.State(), old(Local(subs, Subscribing(names))), names)
    {
      ghost var b, target := bus.State(), VisitAll(bus.State(), Local(subs, Subscribing(names)), names);
      var i := 0;
      assert names[0..] == names;
      while i < |names|
        invariant 0 <= i <= |names|
        invariant Sound() && subs == AsWritten(subscriptions.Value()) && bus.State() == b
        invariant VisitAll(b, Local(subs, Subscribing(names[i..])), names[i..]) == target
      {
        ghost var c := Local(subs, Subscribing(names[i..]));
        NextVisit(b, c, names, i);
        VisitTopic(names[i], subs, names[i + 1..]);
        i := i + 1;
      }
      assert names[i..] == [];
    }

    /** The ghost record of what a command may have hidden, brought back or caught up with. */
    ghost method Note(hidden: bool, revealed: bool, missed: set<Topic>)
      requires Sound()
      modifies this`hidden, this`revealed, this`missed
      ensures Sound() && subscriptions.Value() == old(subscriptions.Value())
      ensures this.hidden == hidden && this.revealed == revealed && this.missed == missed
    {
      this.hidden, this.revealed, this.missed := hidden, revealed, missed;
    }

    /** Adds the pattern to the tree. */
    method AddPattern(pattern: string, ghost subs: Subs, ghost hides: bool)
      requires Sound() && subs == SubInsert(AsWritten(subscriptions.Value()), pattern)
      modifies this`hidden, this`revealed, this`missed, subscriptions, subscriptions.nodes.Values
      ensures Sound() && fresh(subscriptions.nodes.Values - old(subscriptions.nodes.Values))
      ensures AsWritten(subscriptions.Value()) == subs && hidden == hides && !revealed && missed == {}
    {
      Note(hides, false, {});
      subscriptions.Insert(pattern);
    }

    /** Adds the pattern and subscribes to every existing topic that then matches: the run of a Subscribe command.
        Afterwards every existing topic that matches has a stream, among them those the pattern matches if it takes
        effect. */
    method HandleSubscribe(pattern: string) returns (names: seq<Topic>)
      requires Valid()
      modifies this, subscriptions, subscriptions.nodes.Values
      ensures Valid() && fresh(subscriptions.nodes.Values - old(subscriptions.nodes.Values))
      ensures forall t :: t in names <==> t in bus.topics
      ensures Leads(bus.State(), old(State(Idle)), SubscribeSteps(bus.State(), old(State(Idle)), pattern, names),
                    Outcome(bus.State(), State(Idle)))
      ensures forall t :: t in bus.topics && SubCheck(State(Idle).subs, t) ==> t in topicStreams
      ensures TakesEffect(old(State(Idle).subs), pattern) ==>
                forall t :: t in bus.topics && Matches(pattern, t) ==> t in topicStreams
    {
      ghost var c, b := State(Idle), bus.State();
      names := AddAndList(pattern);
      SubscribeToAll(names, AsWritten(subscriptions.Value()));
      SubscribedAll(b, c, pattern, names);
    }

    method AddAndList(pattern: string) returns (names: seq<Topic>)
      requires Sound()
      modifies this`hidden, this`revealed, this`missed, subscriptions, subscriptions.nodes.Values
      ensures Sound() && fresh(subscriptions.nodes.Values - old(subscriptions.nodes.Values))
      ensures forall t :: t in names <==> t in bus.topics
      ensures State(Subscribing(names)) == Subscribed(old(State(Idle)), pattern, names)
    {
      ghost var c := State(Idle);
      AddPattern(pattern, SubInsert(c.subs, pattern), c.hidden || !HidesNothing(c.subs, pattern));
      names := bus.ListTopics();
    }

    /** Removes the pattern and drops every stream whose topic no longer matches: the Unsubscribe step. A stream
        that matched is dropped exactly when the removal ends its match; one that did not stays only if it is
        the empty topic's and the removal brings the empty pattern back. */
    method HandleUnsubscribe(pattern: string)
      requires Valid()
      modifies this, subscriptions, subscriptions.nodes.Values
      ensures Valid() && subscriptions.nodes.Values <= old(subscriptions.nodes.Values)
      ensures Leads(bus.State(), old(State(Idle)), [Unsubscribe(pattern)], Outcome(bus.State(), State(Idle)))
      ensures forall t :: t in topicStreams <==> t in old(topicStreams) && SubCheck(State(Idle).subs, t)
      ensures forall t :: t in old(topicStreams) ==>
                (t in topicStreams <==> StillMatches(old(State(Idle).subs), pattern, t))
    {
      ghost var c, b := State(Idle), bus.State();
      RemoveAndDrop(pattern);
      UnsubscribedOf(b, c, pattern);
    }

    method RemoveAndDrop(pattern: string)
      requires Sound()
      modifies this, subscriptions, subscriptions.nodes.Values
      ensures Sound() && subscriptions.nodes.Values <= old(subscriptions.nodes.Values)
      ensures State(Idle) == Do(bus.State(), old(State(Idle)), Unsubscribe(pattern)).conn
    {
      RemovePattern(pattern);
      DropUnmatched(AsWritten(subscriptions.Value()));
    }

    method RemovePattern(pattern: string)
      requires Sound()
      modifies this`hidden, this`revealed, this`missed, subscriptions, subscriptions.nodes.Values
      ensures Sound() && subscriptions.nodes.Values <= old(subscriptions.nodes.Values)
      ensures !hidden && missed == old(missed)
      ensures revealed == (old(revealed) || BringsBackEmpty(AsWritten(old(subscriptions.Value())), pattern))
      ensures AsWritten(subscriptions.Value()) == SubRemove(AsWritten(old(subscriptions.Value())), pattern)
    {
      Note(false, revealed || BringsBackEmpty(AsWritten(subscriptions.Value()), pattern), missed);
      var _ := subscriptions.Remove(pattern);
    }

    /** The loop of handle_unsubscribe. */
    method DropUnmatched(ghost subs: Subs)
      requires Sound() && subs == AsWritten(subscriptions.Value())
      modifies this`topicStreams
      ensures Sound() && subs == AsWritten(subscriptions.Value())
      ensures topicStreams == map t | t in old(topicStreams) && SubCheck(subs, t) :: old(topicStreams)[t]
    {
      ghost var before := topicStreams;
      var todo := topicStreams.Keys;
      while todo != {}
        invariant Sound() && subs == AsWritten(subscriptions.Value())
        invariant todo <= topicStreams.Keys <= before.Keys
        invariant forall t :: t in topicStreams ==> topicStreams[t] == before[t]
        invariant forall t :: t in before && t !in todo ==> (t in topicStreams <==> SubCheck(subs, t))
        decreases todo
      {
        var t :| t in todo;
        DropIfUnmatched(t, subs);
        todo := todo - {t};
      }
      RestrictedTo(before, topicStreams, subs);
    }

    method DropIfUnmatched(t: Topic, ghost subs: Subs)
      requires Sound() && subs == AsWritten(subscriptions.Value())
      modifies this`topicStreams
      ensures Sound() && subs == AsWritten(subscriptions.Value())
      ensures topicStreams == old(topicStreams) - if SubCheck(subs, t) then {} else {t}
    {
      if !subscriptions.Check(t) {
        topicStreams := topicStreams - {t};
      }
    }

    /** Publishes on the bus: the run of a Publish command. */
    method HandlePublish(name: Topic, message: Message)
      requires Valid()
      modifies bus
      ensures Valid()
      ensures Leads(old(bus.State()), old(State(Idle)), PublishSteps(old(bus.State()), name, message),
                    Outcome(bus.State(), State(Idle)))
    {
      ghost var c, b := State(Idle), bus.State();
      var _ := bus.Send(name, message);
      assert State(Idle) == c;
      LeadsOk(b, c, PublishSteps(b, name, message), Outcome(bus.State(), c));
    }

    method Advance()
      requires Sound() && events < |bus.created|
      modifies this`events
      ensures Sound()
      ensures State(Subscribing([bus.created[old(events)]])) == Told(bus.State(), old(State(Idle)))
    {
      events := events + 1;
    }

    /** Takes the next topic event and subscribes if the new topic matches. */
    method HandleTopicEvent() returns (name: Topic)
      requires Valid() && events < |bus.created| <= events + bus.capacity
      modifies this
      ensures Valid() && name == bus.created[old(events)]
      ensures Leads(bus.State(), old(State(Idle)), EventSteps(bus.State(), old(State(Idle))),
                    Outcome(bus.State(), State(Idle)))
      ensures SubCheck(State(Idle).subs, name) ==> name in topicStreams
    {
      ghost var c, b := State(Idle), bus.State();
      name := bus.created[events];
      Advance();
      HandleNewTopic(name);
      ToldOf(b, c);
    }

    /** Subscribes to a new topic if it matches. */
    method HandleNewTopic(name: Topic)
      requires Sound()
      modifies this`topicStreams, this`episodes, this`sent, this`queued
      ensures Sound() && State(Idle) == VisitAll(bus.State(), old(State(Subscribing([name]))), [name])
    {
      SubscribeToAll([name], AsWritten(subscriptions.Value()));
    }
  }

  lemma NextVisit(bus: Bus, c: Conn, names: seq<Topic>, i: nat)
    requires i < |names|
    ensures VisitAll(bus, c, names[i..])
         == VisitAll(bus, Visited(bus, c.(pc := Subscribing(names[i + 1..])), names[i], names[i + 1..]), names[i + 1..])
  {
    assert names[i..][0] == names[i] && names[i..][1..] == names[i + 1..];
    VisitedForgetsTask(bus, c, c.(pc := Subscribing(names[i + 1..])), names[i], names[i + 1..]);
  }

  /** What the run of a Subscribe command ends in. */
  lemma SubscribedAll(bus: Bus, c: Conn, pattern: string, names: seq<Topic>)
    requires BusOk(bus) && ConnOk(bus, c) && c.pc.Idle? && forall t :: t in names <==> t in bus.topics
    ensures var c' := VisitAll(bus, Subscribed(c, pattern, names), names);
            && ConnOk(bus, c')
            && Leads(bus, c, SubscribeSteps(bus, c, pattern, names), Outcome(bus, c'))
            && (forall t :: t in bus.topics && SubCheck(c'.subs, t) ==> t in c'.streams)
            && (TakesEffect(c.subs, pattern) ==> forall t :: t in bus.topics && Matches(pattern, t) ==> t in c'.streams)
  {
    var c1 := Subscribed(c, pattern, names);
    SubscribeAlone(bus, c, pattern, names);
    LeadsOk(bus, c, SubscribeSteps(bus, c, pattern, names), Outcome(bus, VisitAll(bus, c1, names)));
    forall t | t in bus.topics && SubCheck(VisitAll(bus, c1, names).subs, t)
      ensures t in VisitAll(bus, c1, names).streams {
      VisitAllSubscribes(bus, c1, names, t);
    }
    if TakesEffect(c.subs, pattern) {
      forall t | t in bus.topics && Matches(pattern, t) ensures t in VisitAll(bus, c1, names).streams {
        InsertTakesEffect(c.subs, pattern, t);
        VisitAllSubscribes(bus, c1, names, t);
      }
    }
  }

  /** The topic matches after the pattern is removed, decided before. */
  ghost predicate StillMatches(subs: Subs, pattern: string, topic: Topic) {
    if SubCheck(subs, topic) then !RemovalEndsMatch(subs, pattern, topic)
    else topic == [] && BringsBackEmpty(subs, pattern)
  }

  /** What an Unsubscribe step ends in. */
  lemma UnsubscribedOf(bus: Bus, c: Conn, pattern: string)
    requires BusOk(bus) && ConnOk(bus, c) && c.pc.Idle?
    ensures var c' := Do(bus, c, Unsubscribe(pattern)).conn;
            && ConnOk(bus, c')
            && Leads(bus, c, [Unsubscribe(pattern)], Outcome(bus, c'))
            && (forall t :: t in c'.streams <==> t in c.streams && SubCheck(c'.subs, t))
            && forall t :: t in c.streams ==> (t in c'.streams <==> StillMatches(c.subs, pattern, t))
  {
    OneStep(bus, c, Unsubscribe(pattern));
    forall t ensures SubCheck(SubRemove(c.subs, pattern), t) <==> StillMatches(c.subs, pattern, t) {
      RemoveEndsMatchIff(c.subs, pattern, t);
      RemoveStartsMatchIff(c.subs, pattern, t);
    }
    UnsubscribeConn(bus, c, pattern);
  }

  /** What the run of a topic event ends in. */
  lemma ToldOf(bus: Bus, c: Conn)
    requires BusOk(bus) && ConnOk(bus, c) && Enabled(bus, c, TakeEvent)
    ensures var name := bus.created[c.events];
            var c' := VisitAll(bus, Told(bus, c), [name]);
            && ConnOk(bus, c')
            && Leads(bus, c, EventSteps(bus, c), Outcome(bus, c'))
            && (SubCheck(c'.subs, name) ==> name in c'.streams)
  {
    var name := bus.created[c.events];
    EventAlone(bus, c);
    LeadsOk(bus, c, EventSteps(bus, c), Outcome(bus, VisitAll(bus, Told(bus, c), [name])));
    VisitAllSubscribes(bus, Told(bus, c), [name], name);
  }
}
