/** Runs of one connection's steps with nothing in between: what a handler call amounts to. */
module BrokerRuns {
  import opened Options
  import opened Subscriptions
  import opened Broker
  import opened BrokerInvariant

  /** The steps, one after the other, lead from the bus and the connection to the outcome. */
  ghost predicate Leads(bus: Bus, c: Conn, steps: seq<Step>, o: Outcome)
    decreases |steps|
  {
    if steps == [] then o == Outcome(bus, c)
    else
      && Enabled(bus, c, steps[0])
      && var n := Do(bus, c, steps[0]);
         Leads(n.bus, n.conn, steps[1..], o)
  }

  lemma LeadsFirst(bus: Bus, c: Conn, step: Step, n: Outcome, rest: seq<Step>, o: Outcome)
    requires Enabled(bus, c, step) && n == Do(bus, c, step) && Leads(n.bus, n.conn, rest, o)
    ensures Leads(bus, c, [step] + rest, o)
  {
    assert ([step] + rest)[1..] == rest;
  }

  lemma {:induction false} LeadsOn(bus: Bus, c: Conn, steps: seq<Step>, n: Outcome, rest: seq<Step>, o: Outcome)
    requires Leads(bus, c, steps, n) && Leads(n.bus, n.conn, rest, o)
    ensures Leads(bus, c, steps + rest, o)
    decreases |steps|
  {
    if steps == [] {
      assert [] + rest == rest;
    } else {
      var m := Do(bus, c, steps[0]);
      LeadsOn(m.bus, m.conn, steps[1..], n, rest, o);
      assert (steps + rest)[1..] == steps[1..] + rest;
    }
  }

  /** A run keeps the bus in order and the connection's invariant. */
  lemma {:induction false} LeadsOk(bus: Bus, c: Conn, steps: seq<Step>, o: Outcome)
    requires BusOk(bus) && ConnOk(bus, c) && Leads(bus, c, steps, o)
    ensures BusOk(o.bus) && ConnOk(o.bus, o.conn)
    decreases |steps|
  {
    if steps != [] {
      var n := Do(bus, c, steps[0]);
      StepBus(bus, c, steps[0]);
      StepConn(bus, c, steps[0]);
      LeadsOk(n.bus, n.conn, steps[1..], o);
    }
  }

  // ---------------------------------------------------------------------------
  // Publishing

  ghost function Created(bus: Bus, t: Topic): Bus {
    if t in bus.topics then bus else Opened(bus, t).(created := bus.created + [t])
  }

  lemma CreatedOk(bus: Bus, t: Topic)
    requires BusOk(bus)
    ensures BusOk(Created(bus, t)) && t in Created(bus, t).topics
    ensures Created(bus, t).topics[t].sender < |Created(bus, t).channels|
  {
    if t !in bus.topics {
      InsertTopics(bus, t);
      AnnounceEvent(Opened(bus, t), t);
    }
    assert TopicOk(Created(bus, t), t);
  }

  /** Checking, inserting and announcing, on the way to a first message or alone. */
  ghost function SendSteps(n: nat): seq<Step> {
    if n == 0 then [] else [SendStep] + SendSteps(n - 1)
  }

  ghost function CreateSteps(bus: Bus, t: Topic): seq<Step> {
    [StartCreate(t)] + SendSteps(if t in bus.topics then 1 else 3)
  }

  ghost function PublishSteps(bus: Bus, t: Topic, m: Message): seq<Step> {
    [StartPublish(t, m)] + SendSteps(if t in bus.topics then 2 else 5)
  }

  lemma SendFirst(bus: Bus, c: Conn, n: nat, next: Outcome, o: Outcome)
    requires c.pc.Sending? && n > 0 && next == DoSend(bus, c) && Leads(next.bus, next.conn, SendSteps(n - 1), o)
    ensures Leads(bus, c, SendSteps(n), o)
  {
    LeadsFirst(bus, c, SendStep, next, SendSteps(n - 1), o);
  }

  /** Where a task goes once its topic exists. */
  ghost function AfterCreate(t: Topic, payload: Option<Message>): Pc {
    if payload.Some? then Sending(t, payload, Append) else Idle
  }

  lemma AnnounceRun(bus: Bus, c: Conn, t: Topic, payload: Option<Message>, n: nat, o: Outcome)
    requires Leads(bus.(created := bus.created + [t]), c.(pc := AfterCreate(t, payload)), SendSteps(n), o)
    ensures Leads(bus, c.(pc := Sending(t, payload, Announce)), SendSteps(n + 1), o)
  {
    var next := Outcome(bus.(created := bus.created + [t]), c.(pc := AfterCreate(t, payload)));
    SendFirst(bus, c.(pc := Sending(t, payload, Announce)), n + 1, next, o);
  }

  lemma InsertRun(bus: Bus, c: Conn, t: Topic, payload: Option<Message>, n: nat, o: Outcome)
    requires t !in bus.topics
    requires Leads(Opened(bus, t), c.(pc := Sending(t, payload, Announce)), SendSteps(n), o)
    ensures Leads(bus, c.(pc := Sending(t, payload, InsertTopic)), SendSteps(n + 1), o)
  {
    var next := Outcome(Opened(bus, t), c.(pc := Sending(t, payload, Announce)));
    SendFirst(bus, c.(pc := Sending(t, payload, InsertTopic)), n + 1, next, o);
  }

  lemma LookRun(bus: Bus, c: Conn, t: Topic, payload: Option<Message>, n: nat, o: Outcome)
    requires var next := if t in bus.topics then AfterCreate(t, payload) else Sending(t, payload, InsertTopic);
             Leads(bus, c.(pc := next), SendSteps(n), o)
    ensures Leads(bus, c.(pc := Sending(t, payload, CheckAgain)), SendSteps(n + 1), o)
  {
    var next := if t in bus.topics then AfterCreate(t, payload) else Sending(t, payload, InsertTopic);
    SendFirst(bus, c.(pc := Sending(t, payload, CheckAgain)), n + 1, Outcome(bus, c.(pc := next)), o);
  }

  /** From the second look at the topics on: a missing topic is added and announced, then the task goes on. */
  lemma CreateRun(bus: Bus, c: Conn, t: Topic, payload: Option<Message>, n: nat, o: Outcome)
    requires Leads(Created(bus, t), c.(pc := AfterCreate(t, payload)), SendSteps(n), o)
    ensures Leads(bus, c.(pc := Sending(t, payload, CheckAgain)), SendSteps(n + if t in bus.topics then 1 else 3), o)
  {
    if t in bus.topics {
      LookRun(bus, c, t, payload, n, o);
    } else {
      AnnounceRun(Opened(bus, t), c, t, payload, n, o);
      InsertRun(bus, c, t, payload, n + 1, o);
      LookRun(bus, c, t, payload, n + 2, o);
    }
  }

  /** Uninterrupted, create_topic adds and announces a topic that is not there, and does nothing otherwise. */
  lemma CreateAlone(bus: Bus, c: Conn, t: Topic)
    requires BusOk(bus) && c.pc.Idle?
    ensures Leads(bus, c, CreateSteps(bus, t), Outcome(Created(bus, t), c))
  {
    assert c.(pc := Idle) == c;
    CreateRun(bus, c, t, None, 0, Outcome(Created(bus, t), c));
    var started := c.(pc := Sending(t, None, CheckAgain));
    LeadsFirst(bus, c, StartCreate(t), Outcome(bus, started), SendSteps(if t in bus.topics then 1 else 3),
               Outcome(Created(bus, t), c));
  }

  lemma AppendRun(bus: Bus, c: Conn, t: Topic, m: Message)
    requires t in bus.topics && bus.topics[t].sender < |bus.channels| && c.pc.Idle?
    ensures Leads(bus, c.(pc := Sending(t, Some(m), Append)), SendSteps(1), Outcome(Appended(bus, t, m), c))
  {
    assert c.(pc := Idle) == c;
    var o := Outcome(Appended(bus, t, m), c);
    SendFirst(bus, c.(pc := Sending(t, Some(m), Append)), 1, o, o);
  }

  lemma CheckRun(bus: Bus, c: Conn, t: Topic, m: Message, n: nat, o: Outcome)
    requires var stage := if t in bus.topics then Append else CheckAgain;
             Leads(bus, c.(pc := Sending(t, Some(m), stage)), SendSteps(n), o)
    ensures Leads(bus, c.(pc := Sending(t, Some(m), CheckExists)), SendSteps(n + 1), o)
  {
    var stage := if t in bus.topics then Append else CheckAgain;
    SendFirst(bus, c.(pc := Sending(t, Some(m), CheckExists)), n + 1, Outcome(bus, c.(pc := Sending(t, Some(m), stage))), o);
  }

  lemma StartRun(bus: Bus, c: Conn, t: Topic, m: Message, n: nat, o: Outcome)
    requires c.pc.Idle? && Leads(bus, c.(pc := Sending(t, Some(m), CheckExists)), SendSteps(n), o)
    ensures Leads(bus, c, [StartPublish(t, m)] + SendSteps(n), o)
  {
    LeadsFirst(bus, c, StartPublish(t, m), Outcome(bus, c.(pc := Sending(t, Some(m), CheckExists))), SendSteps(n), o);
  }

  /** Uninterrupted, send creates the topic if need be, then retains and broadcasts the message. */
  lemma PublishAlone(bus: Bus, c: Conn, t: Topic, m: Message)
    requires BusOk(bus) && c.pc.Idle?
    ensures var b := Created(bus, t);
            && t in b.topics && b.topics[t].sender < |b.channels|
            && Leads(bus, c, PublishSteps(bus, t, m), Outcome(Appended(b, t, m), c))
  {
    CreatedOk(bus, t);
    var o := Outcome(Appended(Created(bus, t), t, m), c);
    AppendRun(Created(bus, t), c, t, m);
    if t in bus.topics {
      CheckRun(bus, c, t, m, 1, o);
      StartRun(bus, c, t, m, 2, o);
    } else {
      CreateRun(bus, c, t, Some(m), 1, o);
      CheckRun(bus, c, t, m, 4, o);
      StartRun(bus, c, t, m, 5, o);
    }
  }

  // ---------------------------------------------------------------------------
  // Looking at topics

  /** NextTopic, followed by Seed if there is a retained message. */
  ghost function Visited(bus: Bus, c: Conn, t: Topic, rest: seq<Topic>): Conn {
    var c1 := SubscribeTo(bus, c, t, rest);
    if c1.pc.Seeding? then SeedClient(c1) else c1
  }

  ghost function VisitAll(bus: Bus, c: Conn, todo: seq<Topic>): Conn
    decreases |todo|
  {
    if todo == [] then c.(pc := Idle)
    else VisitAll(bus, Visited(bus, c, todo[0], todo[1..]), todo[1..])
  }

  ghost function VisitSteps(bus: Bus, c: Conn, todo: seq<Topic>): seq<Step>
    decreases |todo|
  {
    if todo == [] then [FinishSubscribing]
    else
      (if SubscribeTo(bus, c, todo[0], todo[1..]).pc.Seeding? then [NextTopic, Seed] else [NextTopic])
      + VisitSteps(bus, Visited(bus, c, todo[0], todo[1..]), todo[1..])
  }

  /** The visit of one topic does not look at where the task stood. */
  lemma VisitedForgetsTask(bus: Bus, c: Conn, d: Conn, t: Topic, rest: seq<Topic>)
    requires d == c.(pc := d.pc)
    ensures Visited(bus, c, t, rest) == Visited(bus, d, t, rest)
  {
  }

  lemma SubscribeToShape(bus: Bus, c: Conn, t: Topic, rest: seq<Topic>)
    ensures var c1 := SubscribeTo(bus, c, t, rest);
            && c1.subs == c.subs && c.streams.Keys <= c1.streams.Keys
            && (SubCheck(c.subs, t) && t in bus.topics ==> t in c1.streams)
            && (c1.pc == Subscribing(rest) || (c1.pc.Seeding? && c1.pc.topic == t && c1.pc.todo == rest))
  {
  }

  lemma SeedShape(c: Conn)
    requires c.pc.Seeding?
    ensures var c' := SeedClient(c); c'.pc == Subscribing(c.pc.todo) && c'.subs == c.subs && c'.streams.Keys == c.streams.Keys
  {
  }

  lemma VisitedShape(bus: Bus, c: Conn, t: Topic, rest: seq<Topic>)
    ensures var c' := Visited(bus, c, t, rest);
            && c'.pc == Subscribing(rest) && c'.subs == c.subs && c.streams.Keys <= c'.streams.Keys
            && (SubCheck(c.subs, t) && t in bus.topics ==> t in c'.streams)
  {
    SubscribeToShape(bus, c, t, rest);
    var c1 := SubscribeTo(bus, c, t, rest);
    if c1.pc.Seeding? {
      SeedShape(c1);
    }
  }

  lemma VisitOneRun(bus: Bus, c: Conn, t: Topic, rest: seq<Topic>, steps: seq<Step>, o: Outcome)
    requires c.pc == Subscribing([t] + rest) && Leads(bus, Visited(bus, c, t, rest), steps, o)
    ensures Leads(bus, c, (if SubscribeTo(bus, c, t, rest).pc.Seeding? then [NextTopic, Seed] else [NextTopic]) + steps, o)
  {
    var c1 := SubscribeTo(bus, c, t, rest);
    assert ([t] + rest)[1..] == rest;
    if c1.pc.Seeding? {
      LeadsFirst(bus, c1, Seed, Outcome(bus, SeedClient(c1)), steps, o);
      LeadsFirst(bus, c, NextTopic, Outcome(bus, c1), [Seed] + steps, o);
      assert [NextTopic] + ([Seed] + steps) == [NextTopic, Seed] + steps;
    } else {
      LeadsFirst(bus, c, NextTopic, Outcome(bus, c1), steps, o);
    }
  }

  /** The loop over a list of topics is a run. */
  lemma {:induction false} VisitRun(bus: Bus, c: Conn, todo: seq<Topic>)
    requires c.pc == Subscribing(todo)
    ensures Leads(bus, c, VisitSteps(bus, c, todo), Outcome(bus, VisitAll(bus, c, todo)))
    decreases |todo|
  {
    if todo == [] {
      var o := Outcome(bus, c.(pc := Idle));
      LeadsFirst(bus, c, FinishSubscribing, o, [], o);
    } else {
      var t, rest := todo[0], todo[1..];
      assert [t] + rest == todo;
      VisitedShape(bus, c, t, rest);
      VisitRun(bus, Visited(bus, c, t, rest), rest);
      VisitOneRun(bus, c, t, rest, VisitSteps(bus, Visited(bus, c, t, rest), rest), Outcome(bus, VisitAll(bus, c, todo)));
    }
  }

  /** Afterwards every matching topic it was given has a stream. */
  lemma {:induction false} VisitAllSubscribes(bus: Bus, c: Conn, todo: seq<Topic>, t: Topic)
    ensures var c' := VisitAll(bus, c, todo);
            && c'.pc.Idle? && c'.subs == c.subs
            && (t in c.streams || (t in todo && t in bus.topics && SubCheck(c.subs, t)) ==> t in c'.streams)
    decreases |todo|
  {
    if todo != [] {
      VisitedShape(bus, c, todo[0], todo[1..]);
      VisitAllSubscribes(bus, Visited(bus, c, todo[0], todo[1..]), todo[1..], t);
    }
  }

  // ---------------------------------------------------------------------------
  // Commands and events

  /** The connection when it has added the pattern and listed the topics. */
  ghost function Subscribed(c: Conn, pattern: string, names: seq<Topic>): Conn {
    c.(subs := SubInsert(c.subs, pattern), hidden := c.hidden || !HidesNothing(c.subs, pattern),
       missed := {}, revealed := false, pc := Subscribing(names))
  }

  ghost function SubscribeSteps(bus: Bus, c: Conn, pattern: string, names: seq<Topic>): seq<Step> {
    [Subscribe(pattern)] + ([FinishListing(names)] + VisitSteps(bus, Subscribed(c, pattern, names), names))
  }

  lemma SubscribeAlone(bus: Bus, c: Conn, pattern: string, names: seq<Topic>)
    requires c.pc.Idle? && forall t :: t in names <==> t in bus.topics
    ensures Leads(bus, c, SubscribeSteps(bus, c, pattern, names),
                  Outcome(bus, VisitAll(bus, Subscribed(c, pattern, names), names)))
  {
    var c2 := Subscribed(c, pattern, names);
    var c1 := c2.(pc := Listing(bus.topics.Keys));
    var o := Outcome(bus, VisitAll(bus, c2, names));
    VisitRun(bus, c2, names);
    LeadsFirst(bus, c1, FinishListing(names), Outcome(bus, c2), VisitSteps(bus, c2, names), o);
    LeadsFirst(bus, c, Subscribe(pattern), Outcome(bus, c1), [FinishListing(names)] + VisitSteps(bus, c2, names), o);
  }

  /** The connection when it has taken its next topic event. */
  ghost function Told(bus: Bus, c: Conn): Conn
    requires c.events < |bus.created|
  {
    c.(events := c.events + 1, pc := Subscribing([bus.created[c.events]]))
  }

  ghost function EventSteps(bus: Bus, c: Conn): seq<Step>
    requires c.events < |bus.created|
  {
    [TakeEvent] + VisitSteps(bus, Told(bus, c), [bus.created[c.events]])
  }

  lemma EventAlone(bus: Bus, c: Conn)
    requires Enabled(bus, c, TakeEvent)
    ensures Leads(bus, c, EventSteps(bus, c), Outcome(bus, VisitAll(bus, Told(bus, c), [bus.created[c.events]])))
  {
    var name := bus.created[c.events];
    VisitRun(bus, Told(bus, c), [name]);
    LeadsFirst(bus, c, TakeEvent, Outcome(bus, Told(bus, c)), VisitSteps(bus, Told(bus, c), [name]),
               Outcome(bus, VisitAll(bus, Told(bus, c), [name])));
  }

  lemma OneStep(bus: Bus, c: Conn, step: Step)
    requires Enabled(bus, c, step)
    ensures Leads(bus, c, [step], Do(bus, c, step))
  {
    var o := Do(bus, c, step);
    LeadsFirst(bus, c, step, o, [], o);
  }
}
