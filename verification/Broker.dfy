/**
 Topic discovery and delivery: publishers and subscribers on one bus, interleaved.
 A step is one operation on shared state (one DashMap operation or the lifetime of one of its
 guards, one broadcast send, one queue operation) together with the connection-local code
 around it. Between two steps of one connection any others may run.
 */
module Broker {
  import opened Options
  import opened Subscriptions

  /** A topic is the byte string of its name, as the matcher reads it; as a key it stands for the name itself, since
      different names have different bytes. */
  type Topic = string
  type Message = seq<bv8>

  // ---------------------------------------------------------------------------
  // Shared state

  /** sender names the topic's broadcast channel. */
  datatype TopicData = TopicData(sender: nat, lastMessage: Option<Message>)

  /** A broadcast channel is everything ever sent on it, of which the newest `capacity` entries
      are retained; a receiver is a cursor into it. created is the channel of topic events. */
  datatype Bus = Bus(capacity: nat, topics: map<Topic, TopicData>, channels: seq<seq<Message>>, created: seq<Topic>)

  ghost function Log(bus: Bus, topic: Topic): seq<Message> {
    if topic in bus.topics && bus.topics[topic].sender < |bus.channels|
    then bus.channels[bus.topics[topic].sender] else []
  }

  // ---------------------------------------------------------------------------
  // One connection

  /** InStep: the last message enqueued is the one before the cursor. Lagged: the cursor jumped and no
      message has been taken since. SeedDropped: the retained message found the client's queue full. */
  datatype Footing = InStep | Lagged | SeedDropped

  datatype Stream = Stream(receiver: nat, cursor: nat, episode: nat, footing: Footing)

  /** A message enqueued to the client: what the log called it, and the episode it belongs to. */
  datatype Delivery = Delivery(topic: Topic, index: int, message: Message, episode: nat)

  /** One subscription of a topic, from subscribe_to_topic until its stream is removed. It is clean
      while it has not lagged and its retained message was not dropped. */
  datatype Episode = Episode(topic: Topic, start: nat, clean: bool)

  datatype SendStage = CheckExists | CheckAgain | InsertTopic | Announce | Append

  /** Where the connection's task stands. Listing and Subscribing are the two halves of handle_subscribe's
      loop over list_topics; a topic event is handled as that loop over one name. */
  datatype Pc =
    | Idle
    | Listing(seen: set<Topic>)
    | Subscribing(todo: seq<Topic>)
    | Seeding(topic: Topic, message: Message, todo: seq<Topic>)
    | Forwarding(topic: Topic, message: Message, index: nat)
    | Sending(topic: Topic, payload: Option<Message>, stage: SendStage)

  datatype Conn = Conn(
    subs: Subs,
    hidden: bool,                 // an insertion may have hidden a pattern since streams were last pruned
    revealed: bool,               // a removal brought the empty pattern back since the topics were last listed
    streams: map<Topic, Stream>,
    events: nat,                  // cursor into the topic events
    missed: set<Topic>,           // topics of the events skipped since the topics were last listed
    pc: Pc,
    queued: nat,                  // messages in the client's queue
    queueCapacity: nat,
    open: bool,                   // the client's queue still has a receiver
    sendFailed: bool,             // a send returned its error
    sent: seq<Delivery>,             // everything enqueued to the client
    episodes: seq<Episode>)

  datatype Step =
    | Subscribe(pattern: string)
    | FinishListing(found: seq<Topic>)
    | NextTopic
    | Seed
    | FinishSubscribing
    | Unsubscribe(pattern: string)
    | TakeEvent
    | LagEvents
    | TakeMessage(topic: Topic)
    | LagStream(topic: Topic)
    | Forward
    | StartPublish(topic: Topic, message: Message)
    | StartCreate(topic: Topic)
    | SendStep
    | ClientTakes
    | ClientCloses

  datatype Outcome = Outcome(bus: Bus, conn: Conn)

  ghost predicate Enabled(bus: Bus, c: Conn, step: Step) {
    match step
    case Subscribe(_) => c.pc.Idle?
    case FinishListing(found) =>
      // the iteration meets every topic present when it began, and none that does not exist
      && c.pc.Listing?
      && (forall t :: t in c.pc.seen ==> t in found)
      && (forall t :: t in found ==> t in bus.topics)
    case NextTopic => c.pc.Subscribing? && c.pc.todo != []
    case Seed => c.pc.Seeding?
    case FinishSubscribing => c.pc.Subscribing? && c.pc.todo == []
    case Unsubscribe(_) => c.pc.Idle?
    case TakeEvent => c.pc.Idle? && c.events < |bus.created| <= c.events + bus.capacity
    case LagEvents => c.pc.Idle? && |bus.created| > c.events + bus.capacity
    case TakeMessage(t) =>
      c.pc.Idle? && t in c.streams && c.streams[t].receiver < |bus.channels|
      && var n := |bus.channels[c.streams[t].receiver]|;
         c.streams[t].cursor < n <= c.streams[t].cursor + bus.capacity
    case LagStream(t) =>
      c.pc.Idle? && t in c.streams && c.streams[t].receiver < |bus.channels|
      && |bus.channels[c.streams[t].receiver]| > c.streams[t].cursor + bus.capacity
    case Forward => c.pc.Forwarding? && c.open && c.queued < c.queueCapacity
    case StartPublish(_, _) => c.pc.Idle?
    case StartCreate(_) => c.pc.Idle?
    case SendStep => c.pc.Sending?
    case ClientTakes => c.queued > 0
    case ClientCloses => true
  }

  ghost function Do(bus: Bus, c: Conn, step: Step): Outcome
    requires Enabled(bus, c, step)
  {
    match step
    case Subscribe(pattern) =>
      Outcome(bus, c.(subs := SubInsert(c.subs, pattern),
                      hidden := c.hidden || !HidesNothing(c.subs, pattern),
                      missed := {}, revealed := false, pc := Listing(bus.topics.Keys)))
    case FinishListing(found) => Outcome(bus, c.(pc := Subscribing(found)))
    case NextTopic => Outcome(bus, SubscribeTo(bus, c, c.pc.todo[0], c.pc.todo[1..]))
    case Seed => Outcome(bus, SeedClient(c))
    case FinishSubscribing => Outcome(bus, c.(pc := Idle))
    case Unsubscribe(pattern) =>
      var subs := SubRemove(c.subs, pattern);
      Outcome(bus, c.(subs := subs, hidden := false, revealed := c.revealed || BringsBackEmpty(c.subs, pattern),
                      streams := map t | t in c.streams && SubCheck(subs, t) :: c.streams[t]))
    case TakeEvent => Outcome(bus, c.(events := c.events + 1, pc := Subscribing([bus.created[c.events]])))
    case LagEvents =>
      var n := |bus.created| - bus.capacity;
      Outcome(bus, c.(events := n, missed := c.missed + Announcements(bus, c.events, n)))
    case TakeMessage(t) =>
      var s := c.streams[t];
      Outcome(bus, c.(streams := c.streams[t := s.(cursor := s.cursor + 1)],
                      pc := Forwarding(t, bus.channels[s.receiver][s.cursor], s.cursor)))
    case LagStream(t) =>
      var s := c.streams[t];
      Outcome(bus, Unclean(c, s.episode).(
        streams := c.streams[t := s.(cursor := |bus.channels[s.receiver]| - bus.capacity, footing := Lagged)]))
    case Forward => Outcome(bus, ForwardToClient(c))
    case StartPublish(t, m) => Outcome(bus, c.(pc := Sending(t, Some(m), CheckExists)))
    case StartCreate(t) => Outcome(bus, c.(pc := Sending(t, None, CheckAgain)))
    case SendStep => DoSend(bus, c)
    case ClientTakes => Outcome(bus, c.(queued := c.queued - 1))
    case ClientCloses => Outcome(bus, c.(open := false))
  }

  /** The topics of the events from lo on, up to hi. */
  ghost function Announcements(bus: Bus, lo: nat, hi: nat): set<Topic> {
    set i | lo <= i < hi && i < |bus.created| :: bus.created[i]
  }

  ghost function Unclean(c: Conn, episode: nat): Conn {
    if episode < |c.episodes|
    then c.(episodes := c.episodes[episode := c.episodes[episode].(clean := false)]) else c
  }

  /** subscribe_to_topic of the handler, for one matching topic of the loop. The receiver and the retained
      message are taken under one guard. */
  ghost function SubscribeTo(bus: Bus, c: Conn, topic: Topic, rest: seq<Topic>): Conn {
    if !SubCheck(c.subs, topic) || topic in c.streams || topic !in bus.topics then
      c.(pc := Subscribing(rest))
    else
      var data, start := bus.topics[topic], |Log(bus, topic)|;
      c.(streams := c.streams[topic := Stream(data.sender, start, |c.episodes|, InStep)],
         episodes := c.episodes + [Episode(topic, start, true)],
         pc := match data.lastMessage
               case Some(m) => Seeding(topic, m, rest)
               case None => Subscribing(rest))
  }

  /** try_send of the retained message. */
  ghost function SeedClient(c: Conn): Conn
    requires c.pc.Seeding?
  {
    var t, rest := c.pc.topic, c.pc.todo;
    if t !in c.streams || c.streams[t].episode >= |c.episodes| then
      c.(pc := Subscribing(rest))
    else
      var s := c.streams[t];
      if c.open && c.queued < c.queueCapacity then
        c.(sent := c.sent + [Delivery(t, c.episodes[s.episode].start - 1, c.pc.message, s.episode)],
           queued := c.queued + 1, pc := Subscribing(rest))
      else
        Unclean(c, s.episode).(streams := c.streams[t := s.(footing := SeedDropped)], pc := Subscribing(rest))
  }

  ghost function ForwardToClient(c: Conn): Conn
    requires c.pc.Forwarding?
  {
    var t := c.pc.topic;
    if t !in c.streams then c.(pc := Idle) else
    var s := c.streams[t];
    c.(sent := c.sent + [Delivery(t, c.pc.index, c.pc.message, s.episode)],
       queued := c.queued + 1, streams := c.streams[t := s.(footing := InStep)], pc := Idle)
  }

  /** Topic t with a fresh channel. */
  ghost function Opened(bus: Bus, t: Topic): Bus {
    bus.(topics := bus.topics[t := TopicData(|bus.channels|, None)], channels := bus.channels + [[]])
  }

  /** Under t's guard: m is retained and broadcast. */
  ghost function Appended(bus: Bus, t: Topic, m: Message): Bus
    requires t in bus.topics && bus.topics[t].sender < |bus.channels|
  {
    var k := bus.topics[t].sender;
    bus.(topics := bus.topics[t := TopicData(k, Some(m))], channels := bus.channels[k := bus.channels[k] + [m]])
  }

  /** send and create_topic, one operation on the shared maps at a time. */
  ghost function DoSend(bus: Bus, c: Conn): Outcome
    requires c.pc.Sending?
  {
    var t, payload := c.pc.topic, c.pc.payload;
    var created := if payload.Some? then c.pc.(stage := Append) else Idle;
    match c.pc.stage
    case CheckExists =>
      Outcome(bus, c.(pc := c.pc.(stage := if t in bus.topics then Append else CheckAgain)))
    case CheckAgain =>
      Outcome(bus, c.(pc := if t in bus.topics then created else c.pc.(stage := InsertTopic)))
    case InsertTopic =>
      Outcome(if t in bus.topics then bus else Opened(bus, t), c.(pc := c.pc.(stage := Announce)))
    case Announce =>
      Outcome(bus.(created := bus.created + [t]), c.(pc := created))
    case Append =>
      if t !in bus.topics || payload.None? || bus.topics[t].sender >= |bus.channels| then
        Outcome(bus, c.(pc := Idle, sendFailed := true))
      else
        Outcome(Appended(bus, t, payload.value), c.(pc := Idle))
  }

  // ---------------------------------------------------------------------------
  // The whole system

  datatype System = System(bus: Bus, conns: map<nat, Conn>)

  datatype Action =
    | Connect(id: nat, counted: bool, queueCapacity: nat)
    | Disconnect(id: nat)
    | Run(id: nat, step: Step)

  /** A new connection subscribes to the topic events first and knows no topics. */
  ghost function NewConn(bus: Bus, counted: bool, queueCapacity: nat): Conn {
    Conn(NoSubs(counted), false, false, map[], |bus.created|, {}, Idle, 0, queueCapacity, true, false, [], [])
  }

  ghost predicate Possible(s: System, a: Action) {
    match a
    case Connect(id, _, _) => id !in s.conns
    case Disconnect(id) =>
      id in s.conns && (s.conns[id].pc.Idle? || (s.conns[id].pc.Forwarding? && !s.conns[id].open))
    case Run(id, step) => id in s.conns && Enabled(s.bus, s.conns[id], step)
  }

  ghost function Apply(s: System, a: Action): System
    requires Possible(s, a)
  {
    match a
    case Connect(id, counted, queueCapacity) =>
      s.(conns := s.conns[id := NewConn(s.bus, counted, queueCapacity)])
    case Disconnect(id) => s.(conns := s.conns - {id})
    case Run(id, step) =>
      var o := Do(s.bus, s.conns[id], step);
      System(o.bus, s.conns[id := o.conn])
  }

  ghost predicate Init(s: System) {
    s.conns == map[] && s.bus.capacity >= 1 && s.bus.topics == map[] && s.bus.channels == [] && s.bus.created == []
  }

  ghost predicate Next(s: System, s': System) {
    exists a :: Possible(s, a) && s' == Apply(s, a)
  }

  /** Any interleaving of any number of connections. */
  ghost predicate Behaviour(trace: seq<System>) {
    && trace != [] && Init(trace[0])
    && forall i :: 0 <= i < |trace| - 1 ==> Next(trace[i], trace[i + 1])
  }
}
