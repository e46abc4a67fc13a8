/** What every step of the broker keeps, for the bus and for each connection. */
module BrokerInvariant {
  import opened Options
  import opened Subscriptions
  import opened Broker

  // ---------------------------------------------------------------------------
  // The bus

  /** The retained message is the last of the log; no two topics share a channel; every event names a topic. */
  ghost predicate BusOk(bus: Bus) {
    && bus.capacity >= 1
    && (forall t :: t in bus.topics ==> TopicOk(bus, t))
    && (forall t, u :: t in bus.topics && u in bus.topics && bus.topics[t].sender == bus.topics[u].sender ==> t == u)
    && (forall i :: 0 <= i < |bus.created| ==> bus.created[i] in bus.topics)
  }

  ghost predicate TopicOk(bus: Bus, t: Topic)
    requires t in bus.topics
  {
    var log := Log(bus, t);
    && bus.topics[t].sender < |bus.channels|
    && bus.topics[t].lastMessage == if log == [] then None else Some(log[|log| - 1])
  }

  /** Topics are never removed or replaced, logs and events are only appended to. */
  ghost predicate Grows(b: Bus, b': Bus) {
    && b.capacity == b'.capacity
    && |b.channels| <= |b'.channels|
    && (forall t :: t in b.topics ==> t in b'.topics && b'.topics[t].sender == b.topics[t].sender && Log(b, t) <= Log(b', t))
    && b.created <= b'.created
  }

  // ---------------------------------------------------------------------------
  // A connection

  /** The index of the next message of topic t the connection will enqueue, or is about to. */
  ghost function Front(c: Conn, t: Topic): nat
    requires t in c.streams
  {
    if c.pc.Forwarding? && c.pc.topic == t then c.pc.index else c.streams[t].cursor
  }

  ghost predicate SeedingTopic(c: Conn, t: Topic) {
    c.pc.Seeding? && c.pc.topic == t
  }

  ghost function Todo(pc: Pc): seq<Topic> {
    match pc
    case Subscribing(todo) => todo
    case Seeding(_, _, todo) => todo
    case _ => []
  }

  ghost predicate StreamOk(bus: Bus, c: Conn, t: Topic)
    requires t in c.streams
  {
    var s := c.streams[t];
    && t in bus.topics && s.receiver == bus.topics[t].sender
    && s.episode < |c.episodes| && c.episodes[s.episode].topic == t
    && c.episodes[s.episode].start <= s.cursor <= |Log(bus, t)|
    && (forall ep :: s.episode < ep < |c.episodes| ==> c.episodes[ep].topic != t)
  }

  /** The topics a task still has to look at exist, and a sender past the check knows its topic to exist. */
  ghost predicate TaskOk(bus: Bus, pc: Pc) {
    match pc
    case Listing(seen) => forall t :: t in seen ==> t in bus.topics
    case Sending(t, payload, stage) =>
      && (stage.Announce? || stage.Append? ==> t in bus.topics)
      && (stage.Append? || stage.CheckExists? ==> payload.Some?)
    case _ => forall t :: t in Todo(pc) ==> t in bus.topics
  }

  /** A retained message on its way to the client is the one just before the new stream's cursor. */
  ghost predicate SeedingOk(bus: Bus, c: Conn)
    requires c.pc.Seeding?
  {
    var t := c.pc.topic;
    && t in c.streams && StreamOk(bus, c, t) && c.streams[t].footing.InStep?
    && c.streams[t].cursor == c.episodes[c.streams[t].episode].start
    && c.episodes[c.streams[t].episode].clean
    && 0 < c.streams[t].cursor && c.pc.message == Log(bus, t)[c.streams[t].cursor - 1]
    && (forall k :: 0 <= k < |c.sent| ==> c.sent[k].episode != c.streams[t].episode)
  }

  /** A live message on its way to the client is the one the cursor has just passed. */
  ghost predicate ForwardingOk(bus: Bus, c: Conn)
    requires c.pc.Forwarding?
  {
    var t := c.pc.topic;
    && t in c.streams && StreamOk(bus, c, t)
    && c.pc.index + 1 == c.streams[t].cursor && c.pc.message == Log(bus, t)[c.pc.index]
    && c.episodes[c.streams[t].episode].start <= c.pc.index
  }

  ghost predicate PcOk(bus: Bus, c: Conn) {
    && TaskOk(bus, c.pc)
    && (c.pc.Seeding? ==> SeedingOk(bus, c))
    && (c.pc.Forwarding? ==> ForwardingOk(bus, c))
  }

  /** An enqueued message is the one its log holds at its index, from the episode's retained message on, and
      later episodes of its topic start behind it. */
  ghost predicate DeliveryOk(bus: Bus, c: Conn, e: Delivery) {
    && e.topic in bus.topics
    && 0 <= e.index < |Log(bus, e.topic)| && e.message == Log(bus, e.topic)[e.index]
    && e.episode < |c.episodes| && c.episodes[e.episode].topic == e.topic
    && c.episodes[e.episode].start <= e.index + 1
    && (forall ep :: e.episode < ep < |c.episodes| && c.episodes[ep].topic == e.topic ==> e.index < c.episodes[ep].start)
    && (e.topic in c.streams ==> e.index < Front(c, e.topic) && e.episode <= c.streams[e.topic].episode)
  }

  ghost predicate HistoryOk(bus: Bus, c: Conn) {
    forall k :: 0 <= k < |c.sent| ==> DeliveryOk(bus, c, c.sent[k])
  }

  /** Per topic, enqueued indices never go down, and go up within an episode. */
  ghost predicate InOrder(e: Delivery, f: Delivery) {
    e.topic == f.topic ==> e.index <= f.index && e.episode <= f.episode && (e.episode == f.episode ==> e.index < f.index)
  }

  ghost predicate OrderOk(sent: seq<Delivery>) {
    forall j, k :: 0 <= j < k < |sent| ==> InOrder(sent[j], sent[k])
  }

  /** The message before the front is enqueued, unless the stream has just lagged or its seed was dropped. */
  ghost predicate FootingOk(bus: Bus, c: Conn, t: Topic)
    requires t in c.streams
  {
    match c.streams[t].footing
    case InStep => Front(c, t) > 0 && !SeedingTopic(c, t) ==> WasSent(c.sent, t, Front(c, t) - 1)
    case Lagged => Front(c, t) < |Log(bus, t)|
    case SeedDropped =>
      !SeedingTopic(c, t) && forall k :: 0 <= k < |c.sent| ==> c.sent[k].episode != c.streams[t].episode
  }

  ghost predicate WasSent(sent: seq<Delivery>, t: Topic, index: int) {
    exists k :: 0 <= k < |sent| && sent[k].topic == t && sent[k].index == index
  }

  /** The indices enqueued in one episode, in order. */
  ghost function Indices(sent: seq<Delivery>, episode: nat): seq<int> {
    if sent == [] then [] else
    var e := sent[|sent| - 1];
    Indices(sent[..|sent| - 1], episode) + if e.episode == episode then [e.index] else []
  }

  ghost function First(e: Episode): nat {
    if e.start > 0 then e.start - 1 else 0
  }

  ghost predicate Contiguous(xs: seq<int>, first: int) {
    forall k :: 0 <= k < |xs| ==> xs[k] == first + k
  }

  /** In a clean episode the indices enqueued so far run without gap or repetition from the retained message on. */
  ghost predicate CleanOk(c: Conn, episode: nat)
    requires episode < |c.episodes|
  {
    c.episodes[episode].clean ==> Contiguous(Indices(c.sent, episode), First(c.episodes[episode]))
  }

  /** ... and reach up to the front while the episode lasts; in one that is not clean, they fall short of it. */
  ghost predicate LiveCleanOk(c: Conn, t: Topic)
    requires t in c.streams
  {
    var ep := c.streams[t].episode;
    ep < |c.episodes| && !SeedingTopic(c, t) ==>
      var reached := First(c.episodes[ep]) + |Indices(c.sent, ep)|;
      if c.episodes[ep].clean then reached == Front(c, t) else reached < Front(c, t)
  }

  ghost predicate EpisodesOk(c: Conn) {
    && (forall ep :: 0 <= ep < |c.episodes| ==> CleanOk(c, ep))
    && (forall t :: t in c.streams ==> LiveCleanOk(c, t))
  }

  ghost predicate StreamsOk(bus: Bus, c: Conn) {
    forall t :: t in c.streams ==> StreamOk(bus, c, t) && FootingOk(bus, c, t)
  }

  /** Every stream's topic is matched, unless an insertion may have hidden a pattern. */
  ghost predicate AgreementOk(c: Conn) {
    !c.hidden ==> forall t :: t in c.streams ==> SubCheck(c.subs, t)
  }

  ghost predicate ConnOk(bus: Bus, c: Conn) {
    && SubsValid(c.subs)
    && c.events <= |bus.created|
    && !c.sendFailed
    && (c.subs.Counted? ==> !c.hidden && !c.revealed)
    && StreamsOk(bus, c)
    && PcOk(bus, c)
    && HistoryOk(bus, c)
    && OrderOk(c.sent)
    && EpisodesOk(c)
    && AgreementOk(c)
  }

  // ---------------------------------------------------------------------------
  // Coverage

  ghost predicate AtAnnounce(c: Conn, t: Topic) {
    c.pc.Sending? && c.pc.stage.Announce? && c.pc.topic == t
  }

  /** Some publisher stands between inserting t and broadcasting it. */
  ghost predicate Announcing(conns: map<nat, Conn>, t: Topic) {
    exists id :: id in conns && AtAnnounce(conns[id], t)
  }

  ghost predicate Pending(bus: Bus, c: Conn, t: Topic) {
    exists i :: c.events <= i < |bus.created| && bus.created[i] == t
  }

  /** Topic t is subscribed, or the connection still has a way of hearing of it. */
  ghost predicate Reached(s: System, c: Conn, t: Topic) {
    || t in c.streams
    || t in Todo(c.pc)
    || (c.pc.Listing? && t in c.pc.seen)
    || Pending(s.bus, c, t)
    || Announcing(s.conns, t)
  }

  /** Coverage of t is promised: no event of t was skipped, and t is not the empty topic that a removal made match. */
  ghost predicate Governed(c: Conn, t: Topic) {
    t !in c.missed && (t == [] ==> !c.revealed)
  }

  ghost predicate Covered(s: System, c: Conn) {
    forall t :: t in s.bus.topics && SubCheck(c.subs, t) && Governed(c, t) ==> Reached(s, c, t)
  }

  /** Every topic was announced, or is about to be. */
  ghost predicate Announced(s: System) {
    forall t :: t in s.bus.topics ==> t in s.bus.created || Announcing(s.conns, t)
  }

  ghost predicate Inv(s: System) {
    && BusOk(s.bus)
    && Announced(s)
    && forall id :: id in s.conns ==> ConnOk(s.bus, s.conns[id]) && Covered(s, s.conns[id])
  }

  // ---------------------------------------------------------------------------
  // Proofs: the bus

  lemma AppendedLog(bus: Bus, t: Topic, m: Message, u: Topic)
    requires BusOk(bus) && t in bus.topics && u in bus.topics
    ensures TopicOk(bus, t)
    ensures TopicOk(Appended(bus, t, m), u)
    ensures Log(Appended(bus, t, m), u) == Log(bus, u) + if u == t then [m] else []
  {
    assert TopicOk(bus, t) && TopicOk(bus, u);
  }

  lemma AppendLogs(bus: Bus, t: Topic, m: Message)
    requires BusOk(bus) && t in bus.topics
    ensures TopicOk(bus, t) && BusOk(Appended(bus, t, m)) && Grows(bus, Appended(bus, t, m))
  {
    AppendedLog(bus, t, m, t);
    var bus' := Appended(bus, t, m);
    forall u | u in bus.topics
      ensures TopicOk(bus', u) && Log(bus, u) <= Log(bus', u) && bus'.topics[u].sender == bus.topics[u].sender {
      AppendedLog(bus, t, m, u);
    }
  }

  lemma OpenedLog(bus: Bus, t: Topic, u: Topic)
    requires BusOk(bus) && t !in bus.topics && (u in bus.topics || u == t)
    ensures TopicOk(Opened(bus, t), u)
    ensures u in bus.topics ==> Log(Opened(bus, t), u) == Log(bus, u) && bus.topics[u].sender < |bus.channels|
  {
    if u in bus.topics {
      assert TopicOk(bus, u);
    }
  }

  lemma InsertTopics(bus: Bus, t: Topic)
    requires BusOk(bus) && t !in bus.topics
    ensures BusOk(Opened(bus, t)) && Grows(bus, Opened(bus, t))
  {
    var bus' := Opened(bus, t);
    forall u | u in bus'.topics
      ensures TopicOk(bus', u)
      ensures u in bus.topics ==> Log(bus', u) == Log(bus, u) && bus.topics[u].sender < |bus.channels| {
      OpenedLog(bus, t, u);
    }
  }

  lemma SendBus(bus: Bus, c: Conn)
    requires BusOk(bus) && c.pc.Sending? && TaskOk(bus, c.pc)
    ensures BusOk(DoSend(bus, c).bus) && Grows(bus, DoSend(bus, c).bus)
  {
    var t, bus' := c.pc.topic, DoSend(bus, c).bus;
    if c.pc.stage.InsertTopic? && t !in bus.topics {
      InsertTopics(bus, t);
    } else if c.pc.stage.Append? {
      AppendLogs(bus, t, c.pc.payload.value);
      assert bus' == Appended(bus, t, c.pc.payload.value);
    } else if c.pc.stage.Announce? {
      AnnounceEvent(bus, t);
    } else {
      assert bus' == bus;
    }
  }

  /** A step of a send moves the task and nothing else of the connection. */
  lemma SendShape(bus: Bus, c: Conn)
    requires c.pc.Sending?
    ensures var c' := DoSend(bus, c).conn; c' == c.(pc := c'.pc, sendFailed := c'.sendFailed) && Quiet(c')
  {
    match c.pc.stage
    case CheckExists =>
    case CheckAgain =>
    case InsertTopic =>
    case Announce =>
    case Append =>
  }

  lemma AnnounceEvent(bus: Bus, t: Topic)
    requires BusOk(bus) && t in bus.topics
    ensures var bus' := bus.(created := bus.created + [t]); BusOk(bus') && Grows(bus, bus')
  {
    var bus' := bus.(created := bus.created + [t]);
    forall u | u in bus'.topics ensures TopicOk(bus', u) && Log(bus', u) == Log(bus, u) {
      assert TopicOk(bus, u);
    }
  }

  /** Every step keeps the bus in order, and the bus only grows. */
  lemma StepBus(bus: Bus, c: Conn, step: Step)
    requires BusOk(bus) && TaskOk(bus, c.pc) && Enabled(bus, c, step)
    ensures BusOk(Do(bus, c, step).bus) && Grows(bus, Do(bus, c, step).bus)
  {
    if step.SendStep? {
      SendBus(bus, c);
    }
  }

  // ---------------------------------------------------------------------------
  // Proofs: connections that do not move

  /** A connection's own invariant does not depend on what others add to the bus. */
  lemma ConnFrame(bus: Bus, bus': Bus, c: Conn)
    requires ConnOk(bus, c) && Grows(bus, bus')
    ensures ConnOk(bus', c)
  {
    forall t | t in c.streams ensures StreamOk(bus', c, t) && FootingOk(bus', c, t) {
      assert StreamOk(bus, c, t) && FootingOk(bus, c, t);
    }
    forall k | 0 <= k < |c.sent| ensures DeliveryOk(bus', c, c.sent[k]) {
      assert DeliveryOk(bus, c, c.sent[k]);
    }
  }

  // ---------------------------------------------------------------------------
  // Proofs: the connection that moves

  /** The connection is neither about to enqueue a retained message nor holding one it has taken. */
  ghost predicate Quiet(c: Conn) {
    !c.pc.Seeding? && !c.pc.Forwarding?
  }

  /** Some streams may be gone; the others, the history and the episodes are as they were. */
  ghost predicate FewerStreams(c: Conn, c': Conn) {
    && (forall t :: t in c'.streams ==> t in c.streams && c'.streams[t] == c.streams[t])
    && c'.sent == c.sent && c'.episodes == c.episodes
    && (c'.pc == c.pc || (Quiet(c) && Quiet(c')))
  }

  lemma FewerStreamsOk(bus: Bus, c: Conn, c': Conn)
    requires StreamsOk(bus, c) && FewerStreams(c, c')
    ensures StreamsOk(bus, c')
  {
    forall t | t in c'.streams ensures StreamOk(bus, c', t) && FootingOk(bus, c', t) {
      assert StreamOk(bus, c, t) && FootingOk(bus, c, t);
    }
  }

  lemma FewerStreamsHistory(bus: Bus, c: Conn, c': Conn)
    requires HistoryOk(bus, c) && FewerStreams(c, c')
    ensures HistoryOk(bus, c')
  {
    forall k | 0 <= k < |c'.sent| ensures DeliveryOk(bus, c', c'.sent[k]) {
      assert DeliveryOk(bus, c, c.sent[k]);
    }
  }

  lemma FewerStreamsEpisodes(c: Conn, c': Conn)
    requires EpisodesOk(c) && FewerStreams(c, c')
    ensures EpisodesOk(c')
  {
    forall t | t in c'.streams ensures LiveCleanOk(c', t) {
      assert LiveCleanOk(c, t);
    }
    forall ep | 0 <= ep < |c'.episodes| ensures CleanOk(c', ep) {
      assert CleanOk(c, ep);
    }
  }

  /** Dropping streams leaves the books of the others alone. */
  lemma FewerStreamsConn(bus: Bus, c: Conn, c': Conn)
    requires ConnOk(bus, c) && FewerStreams(c, c') && PcOk(bus, c')
    requires SubsValid(c'.subs) && c'.events <= |bus.created| && !c'.sendFailed
    requires c'.subs.Counted? ==> !c'.hidden && !c'.revealed
    requires AgreementOk(c')
    ensures ConnOk(bus, c')
  {
    FewerStreamsOk(bus, c, c');
    FewerStreamsHistory(bus, c, c');
    FewerStreamsEpisodes(c, c');
  }

  /** Steps that touch neither streams nor history. */
  lemma QuietStep(bus: Bus, c: Conn, c': Conn)
    requires ConnOk(bus, c) && Quiet(c) && Quiet(c') && TaskOk(bus, c'.pc)
    requires c'.streams == c.streams && c'.sent == c.sent && c'.episodes == c.episodes
    requires SubsValid(c'.subs) && c'.events <= |bus.created| && !c'.sendFailed
    requires c'.subs.Counted? ==> !c'.hidden && !c'.revealed
    requires AgreementOk(c')
    ensures ConnOk(bus, c')
  {
    FewerStreamsConn(bus, c, c');
  }

  lemma SubscribeConn(bus: Bus, c: Conn, pattern: string)
    requires BusOk(bus) && ConnOk(bus, c) && c.pc.Idle?
    ensures ConnOk(bus, Do(bus, c, Subscribe(pattern)).conn)
  {
    var c' := Do(bus, c, Subscribe(pattern)).conn;
    SubsStayValid(c.subs, pattern);
    if !c'.hidden {
      forall t | t in c'.streams ensures SubCheck(c'.subs, t) {
        InsertGrows(c.subs, pattern, t);
      }
    }
    QuietStep(bus, c, c');
  }

  lemma UnsubscribeConn(bus: Bus, c: Conn, pattern: string)
    requires BusOk(bus) && ConnOk(bus, c) && c.pc.Idle?
    ensures ConnOk(bus, Do(bus, c, Unsubscribe(pattern)).conn)
  {
    var c' := Do(bus, c, Unsubscribe(pattern)).conn;
    SubsStayValid(c.subs, pattern);
    FewerStreamsConn(bus, c, c');
  }

  lemma SendPc(bus: Bus, c: Conn)
    requires BusOk(bus) && c.pc.Sending? && TaskOk(bus, c.pc)
    ensures TaskOk(DoSend(bus, c).bus, DoSend(bus, c).conn.pc)
  {
    if c.pc.stage.Append? {
      AppendPc(bus, c);
    } else {
      CreatePc(bus, c);
    }
  }

  /** Past each look at the topics, the task holds what it saw. */
  lemma CreatePc(bus: Bus, c: Conn)
    requires c.pc.Sending? && !c.pc.stage.Append? && TaskOk(bus, c.pc)
    ensures TaskOk(DoSend(bus, c).bus, DoSend(bus, c).conn.pc)
  {
    var o := DoSend(bus, c);
    if o.conn.pc.Sending? {
      assert o.conn.pc.stage.Announce? || o.conn.pc.stage.Append? ==> c.pc.topic in o.bus.topics;
    } else {
      assert Todo(o.conn.pc) == [];
    }
  }

  lemma SendSucceeds(bus: Bus, c: Conn)
    requires BusOk(bus) && c.pc.Sending? && TaskOk(bus, c.pc)
    ensures DoSend(bus, c).conn.sendFailed == c.sendFailed
  {
    if c.pc.stage.Append? {
      AppendPc(bus, c);
    }
  }

  /** send never returns its error: by the time it looks the topic up, the topic exists. */
  lemma AppendPc(bus: Bus, c: Conn)
    requires BusOk(bus) && c.pc.Sending? && c.pc.stage.Append? && TaskOk(bus, c.pc)
    ensures DoSend(bus, c).conn == c.(pc := Idle)
  {
    assert TopicOk(bus, c.pc.topic);
  }

  lemma SendConn(bus: Bus, c: Conn)
    requires BusOk(bus) && ConnOk(bus, c) && c.pc.Sending?
    ensures var o := DoSend(bus, c); ConnOk(o.bus, o.conn)
  {
    var o := DoSend(bus, c);
    SendBus(bus, c);
    SendPc(bus, c);
    SendSucceeds(bus, c);
    SendShape(bus, c);
    ConnFrame(bus, o.bus, c);
    QuietStep(o.bus, c, o.conn);
  }

  lemma {:induction false} IndicesNone(sent: seq<Delivery>, episode: nat)
    requires forall k :: 0 <= k < |sent| ==> sent[k].episode != episode
    ensures Indices(sent, episode) == []
  {
    if sent != [] {
      IndicesNone(sent[..|sent| - 1], episode);
    }
  }

  lemma IndicesSnoc(sent: seq<Delivery>, e: Delivery, episode: nat)
    ensures Indices(sent + [e], episode) == Indices(sent, episode) + if e.episode == episode then [e.index] else []
  {
    assert (sent + [e])[..|sent|] == sent;
  }

  /** A new stream starts at the end of its log, in a new episode. */
  lemma NextTopicConn(bus: Bus, c: Conn)
    requires BusOk(bus) && ConnOk(bus, c) && c.pc.Subscribing? && c.pc.todo != []
    ensures ConnOk(bus, SubscribeTo(bus, c, c.pc.todo[0], c.pc.todo[1..]))
  {
    var t, rest := c.pc.todo[0], c.pc.todo[1..];
    var c' := SubscribeTo(bus, c, t, rest);
    assert forall u :: u in rest ==> u in c.pc.todo;
    assert t in c.pc.todo;
    if SubCheck(c.subs, t) && t !in c.streams && t in bus.topics {
      NewStreamConn(bus, c, t, rest);
    } else {
      assert c' == c.(pc := Subscribing(rest));
      SkipTopicConn(bus, c, rest);
    }
  }

  lemma SkipTopicConn(bus: Bus, c: Conn, rest: seq<Topic>)
    requires ConnOk(bus, c) && Quiet(c) && forall u :: u in rest ==> u in bus.topics
    ensures ConnOk(bus, c.(pc := Subscribing(rest)))
  {
    QuietStep(bus, c, c.(pc := Subscribing(rest)));
  }

  /** A stream for t appears, at the end of t's log and in a new episode; a retained message is on its way. */
  ghost predicate NewStream(bus: Bus, c: Conn, c': Conn, t: Topic) {
    && t !in c.streams && t in bus.topics && TopicOk(bus, t) && Quiet(c)
    && c'.streams == c.streams[t := Stream(bus.topics[t].sender, |Log(bus, t)|, |c.episodes|, InStep)]
    && c'.episodes == c.episodes + [Episode(t, |Log(bus, t)|, true)]
    && c'.sent == c.sent && !c'.pc.Forwarding?
    && (c'.pc.Seeding? <==> Log(bus, t) != [])
    && (c'.pc.Seeding? ==> c'.pc.topic == t && c'.pc.message == Log(bus, t)[|Log(bus, t)| - 1])
  }

  lemma SubscribeToIsNewStream(bus: Bus, c: Conn, t: Topic, rest: seq<Topic>)
    requires BusOk(bus) && Quiet(c) && SubCheck(c.subs, t) && t !in c.streams && t in bus.topics
    ensures NewStream(bus, c, SubscribeTo(bus, c, t, rest), t)
  {
    assert TopicOk(bus, t);
  }

  lemma NewStreamConn(bus: Bus, c: Conn, t: Topic, rest: seq<Topic>)
    requires BusOk(bus) && ConnOk(bus, c) && Quiet(c)
    requires SubCheck(c.subs, t) && t !in c.streams && t in bus.topics
    requires forall u :: u in rest ==> u in bus.topics
    ensures ConnOk(bus, SubscribeTo(bus, c, t, rest))
  {
    var c' := SubscribeTo(bus, c, t, rest);
    SubscribeToIsNewStream(bus, c, t, rest);
    NewStreamHistory(bus, c, c', t);
    NewStreamStreams(bus, c, c', t);
    NewStreamEpisodes(bus, c, c', t);
    NewStreamPc(bus, c, c', t);
  }

  lemma NewStreamPc(bus: Bus, c: Conn, c': Conn, t: Topic)
    requires NewStream(bus, c, c', t) && HistoryOk(bus, c) && TaskOk(bus, c'.pc)
    ensures PcOk(bus, c')
  {
    forall k | 0 <= k < |c.sent| ensures c.sent[k].episode != |c.episodes| {
      assert DeliveryOk(bus, c, c.sent[k]);
    }
  }

  lemma NewStreamHistory(bus: Bus, c: Conn, c': Conn, t: Topic)
    requires NewStream(bus, c, c', t) && HistoryOk(bus, c)
    ensures HistoryOk(bus, c')
  {
    forall k | 0 <= k < |c'.sent| ensures DeliveryOk(bus, c', c'.sent[k]) {
      NewStreamDelivery(bus, c, c', t, c.sent[k]);
    }
  }

  lemma NewStreamDelivery(bus: Bus, c: Conn, c': Conn, t: Topic, e: Delivery)
    requires NewStream(bus, c, c', t) && DeliveryOk(bus, c, e)
    ensures DeliveryOk(bus, c', e)
  {
  }

  lemma NewStreamStreams(bus: Bus, c: Conn, c': Conn, t: Topic)
    requires NewStream(bus, c, c', t) && StreamsOk(bus, c)
    ensures StreamsOk(bus, c')
  {
    forall u | u in c'.streams ensures StreamOk(bus, c', u) && FootingOk(bus, c', u) {
      if u != t {
        assert StreamOk(bus, c, u) && FootingOk(bus, c, u);
        NewStreamOther(bus, c, c', t, u);
      }
    }
  }

  lemma NewStreamOther(bus: Bus, c: Conn, c': Conn, t: Topic, u: Topic)
    requires NewStream(bus, c, c', t) && u in c.streams && u != t && StreamOk(bus, c, u) && FootingOk(bus, c, u)
    ensures StreamOk(bus, c', u) && FootingOk(bus, c', u)
  {
  }

  lemma NothingInNext(bus: Bus, c: Conn)
    requires HistoryOk(bus, c)
    ensures Indices(c.sent, |c.episodes|) == []
  {
    forall k | 0 <= k < |c.sent| ensures c.sent[k].episode != |c.episodes| {
      assert DeliveryOk(bus, c, c.sent[k]);
    }
    IndicesNone(c.sent, |c.episodes|);
  }

  lemma NewStreamEpisodes(bus: Bus, c: Conn, c': Conn, t: Topic)
    requires NewStream(bus, c, c', t) && StreamsOk(bus, c) && HistoryOk(bus, c) && EpisodesOk(c)
    ensures EpisodesOk(c')
  {
    var ep := |c.episodes|;
    NothingInNext(bus, c);
    forall u | u in c'.streams ensures LiveCleanOk(c', u) {
      if u != t {
        OtherLiveClean(bus, c, c', u);
      }
    }
    forall e | 0 <= e < |c'.episodes| ensures CleanOk(c', e) {
      assert e < ep ==> CleanOk(c, e);
    }
  }

  /** What a step does to one stream and its episode is nothing to another stream. */
  lemma OtherLiveClean(bus: Bus, c: Conn, c': Conn, u: Topic)
    requires StreamsOk(bus, c) && EpisodesOk(c) && u in c.streams && u in c'.streams
    requires c'.streams[u] == c.streams[u] && c'.sent == c.sent && Front(c', u) == Front(c, u)
    requires SeedingTopic(c, u) <==> SeedingTopic(c', u)
    requires c.episodes <= c'.episodes
    ensures LiveCleanOk(c', u)
  {
    assert StreamOk(bus, c, u) && LiveCleanOk(c, u);
  }

  /** Enqueueing the entry at the front of a stream, which then stands one further. */
  ghost predicate Enqueued(bus: Bus, c: Conn, c': Conn, t: Topic, e: Delivery) {
    && t in c.streams && StreamOk(bus, c, t)
    && e.topic == t && e.episode == c.streams[t].episode
    && 0 <= e.index < |Log(bus, t)| && e.message == Log(bus, t)[e.index]
    && c.episodes[e.episode].start <= e.index + 1
    && c'.sent == c.sent + [e] && c'.episodes == c.episodes && c'.subs == c.subs
    && c'.hidden == c.hidden && c'.revealed == c.revealed
    && c'.streams == c.streams[t := c.streams[t].(footing := InStep)]
    && c'.events == c.events && !c'.sendFailed && Quiet(c') && PcOk(bus, c')
    && e.index + 1 == c.streams[t].cursor
    && (forall k :: 0 <= k < |c.sent| ==> InOrder(c.sent[k], e))
    && var reached := First(c.episodes[e.episode]) + |Indices(c.sent, e.episode)|;
       if c.episodes[e.episode].clean then e.index == reached else e.index > reached
  }

  lemma EnqueueConn(bus: Bus, c: Conn, c': Conn, t: Topic, e: Delivery)
    requires ConnOk(bus, c) && (c.pc.Seeding? || c.pc.Forwarding?) && c.pc.topic == t
    requires Enqueued(bus, c, c', t, e)
    ensures ConnOk(bus, c')
  {
    EnqueueHistory(bus, c, c', t, e);
    OrderSnoc(c.sent, e);
    EnqueueStreams(bus, c, c', t, e);
    EnqueueEpisodes(bus, c, c', t, e);
  }

  lemma EnqueueStreams(bus: Bus, c: Conn, c': Conn, t: Topic, e: Delivery)
    requires StreamsOk(bus, c) && (c.pc.Seeding? || c.pc.Forwarding?) && c.pc.topic == t
    requires Enqueued(bus, c, c', t, e)
    ensures StreamsOk(bus, c')
  {
    forall u | u in c'.streams ensures StreamOk(bus, c', u) && FootingOk(bus, c', u) {
      assert StreamOk(bus, c, u) && FootingOk(bus, c, u);
      if u == t {
        assert c'.sent[|c.sent|] == e;
      } else if c.streams[u].footing.InStep? && Front(c, u) > 0 {
        StillSent(c.sent, e, u, Front(c, u) - 1);
      }
    }
  }

  lemma StillSent(sent: seq<Delivery>, e: Delivery, t: Topic, index: int)
    requires WasSent(sent, t, index)
    ensures WasSent(sent + [e], t, index)
  {
    var k :| 0 <= k < |sent| && sent[k].topic == t && sent[k].index == index;
    assert (sent + [e])[k] == sent[k];
  }

  lemma EnqueueHistory(bus: Bus, c: Conn, c': Conn, t: Topic, e: Delivery)
    requires ConnOk(bus, c) && (c.pc.Seeding? || c.pc.Forwarding?) && c.pc.topic == t
    requires Enqueued(bus, c, c', t, e)
    ensures HistoryOk(bus, c')
  {
    forall k | 0 <= k < |c'.sent| ensures DeliveryOk(bus, c', c'.sent[k]) {
      EnqueueDelivery(bus, c, c', t, e, k);
    }
  }

  lemma EnqueueDelivery(bus: Bus, c: Conn, c': Conn, t: Topic, e: Delivery, k: nat)
    requires HistoryOk(bus, c) && (c.pc.Seeding? || c.pc.Forwarding?) && c.pc.topic == t
    requires Enqueued(bus, c, c', t, e) && k < |c'.sent|
    requires c.pc.Forwarding? ==> c.pc.index + 1 == c.streams[t].cursor
    ensures DeliveryOk(bus, c', c'.sent[k])
  {
    if k < |c.sent| {
      assert DeliveryOk(bus, c, c.sent[k]);
    }
  }

  lemma OrderSnoc(sent: seq<Delivery>, e: Delivery)
    requires OrderOk(sent) && forall k :: 0 <= k < |sent| ==> InOrder(sent[k], e)
    ensures OrderOk(sent + [e])
  {
  }

  lemma EnqueueEpisodes(bus: Bus, c: Conn, c': Conn, t: Topic, e: Delivery)
    requires ConnOk(bus, c) && (c.pc.Seeding? || c.pc.Forwarding?) && c.pc.topic == t
    requires Enqueued(bus, c, c', t, e)
    ensures EpisodesOk(c')
  {
    forall ep | 0 <= ep < |c'.episodes| ensures CleanOk(c', ep) {
      EnqueueClean(bus, c, c', t, e, ep);
    }
    forall u | u in c'.streams ensures LiveCleanOk(c', u) {
      EnqueueLiveClean(bus, c, c', t, e, u);
    }
  }

  lemma EnqueueClean(bus: Bus, c: Conn, c': Conn, t: Topic, e: Delivery, ep: nat)
    requires EpisodesOk(c) && Enqueued(bus, c, c', t, e) && ep < |c.episodes|
    ensures CleanOk(c', ep)
  {
    assert CleanOk(c, ep);
    IndicesSnoc(c.sent, e, ep);
  }

  lemma EnqueueLiveClean(bus: Bus, c: Conn, c': Conn, t: Topic, e: Delivery, u: Topic)
    requires StreamsOk(bus, c) && EpisodesOk(c) && (c.pc.Seeding? || c.pc.Forwarding?) && c.pc.topic == t
    requires Enqueued(bus, c, c', t, e) && u in c'.streams
    ensures LiveCleanOk(c', u)
  {
    assert LiveCleanOk(c, u) && StreamOk(bus, c, u);
    IndicesSnoc(c.sent, e, c.streams[u].episode);
  }

  /** The entry at the front of a stream comes after everything enqueued so far. */
  lemma FrontInOrder(bus: Bus, c: Conn, e: Delivery)
    requires HistoryOk(bus, c) && e.topic in c.streams && e.episode == c.streams[e.topic].episode
    requires e.index >= Front(c, e.topic)
             || (e.index == Front(c, e.topic) - 1 && forall k :: 0 <= k < |c.sent| ==> c.sent[k].episode != e.episode)
    ensures forall k :: 0 <= k < |c.sent| ==> InOrder(c.sent[k], e)
  {
    forall k | 0 <= k < |c.sent| ensures InOrder(c.sent[k], e) {
      assert DeliveryOk(bus, c, c.sent[k]);
    }
  }

  lemma ForwardConn(bus: Bus, c: Conn)
    requires BusOk(bus) && ConnOk(bus, c) && c.pc.Forwarding?
    ensures ConnOk(bus, ForwardToClient(c))
  {
    var t := c.pc.topic;
    var e := Delivery(t, c.pc.index, c.pc.message, c.streams[t].episode);
    assert LiveCleanOk(c, t);
    FrontInOrder(bus, c, e);
    EnqueueConn(bus, c, ForwardToClient(c), t, e);
  }

  lemma SeedConn(bus: Bus, c: Conn)
    requires BusOk(bus) && ConnOk(bus, c) && c.pc.Seeding?
    ensures ConnOk(bus, SeedClient(c))
  {
    if c.open && c.queued < c.queueCapacity {
      SeedEnqueuedConn(bus, c);
    } else {
      SeedDroppedConn(bus, c);
    }
  }

  ghost function SeedEntry(c: Conn): Delivery
    requires c.pc.Seeding? && c.pc.topic in c.streams && c.streams[c.pc.topic].episode < |c.episodes|
  {
    var r := c.streams[c.pc.topic];
    Delivery(c.pc.topic, c.episodes[r.episode].start - 1, c.pc.message, r.episode)
  }

  lemma SeedEnqueuedConn(bus: Bus, c: Conn)
    requires ConnOk(bus, c) && c.pc.Seeding? && c.open && c.queued < c.queueCapacity
    ensures ConnOk(bus, SeedClient(c))
  {
    FrontInOrder(bus, c, SeedEntry(c));
    IndicesNone(c.sent, SeedEntry(c).episode);
    SeedIsEnqueued(bus, c);
    EnqueueConn(bus, c, SeedClient(c), c.pc.topic, SeedEntry(c));
  }

  lemma SeedIsEnqueued(bus: Bus, c: Conn)
    requires PcOk(bus, c) && c.pc.Seeding? && !c.sendFailed && c.open && c.queued < c.queueCapacity
    requires forall k :: 0 <= k < |c.sent| ==> InOrder(c.sent[k], SeedEntry(c))
    requires Indices(c.sent, SeedEntry(c).episode) == []
    ensures Enqueued(bus, c, SeedClient(c), c.pc.topic, SeedEntry(c))
  {
    var t := c.pc.topic;
    assert c.streams == c.streams[t := c.streams[t].(footing := InStep)];
  }

  lemma SeedDroppedConn(bus: Bus, c: Conn)
    requires ConnOk(bus, c) && c.pc.Seeding? && !(c.open && c.queued < c.queueCapacity)
    ensures ConnOk(bus, SeedClient(c))
  {
    var t, c' := c.pc.topic, SeedClient(c);
    IndicesNone(c.sent, c.streams[t].episode);
    SeedDroppedKeeps(bus, c);
    BooksKeptConn(bus, c, c', t);
  }

  lemma SeedDroppedKeeps(bus: Bus, c: Conn)
    requires PcOk(bus, c) && c.pc.Seeding? && !c.sendFailed && !(c.open && c.queued < c.queueCapacity)
    requires Indices(c.sent, c.streams[c.pc.topic].episode) == []
    ensures BooksKept(bus, c, SeedClient(c), c.pc.topic)
  {
  }

  /** One stream changes its cursor or footing, its episode at most stops being clean, and nothing is enqueued. */
  ghost predicate BooksKept(bus: Bus, c: Conn, c': Conn, t: Topic) {
    && t in c.streams && t in c'.streams && c.streams[t].episode < |c.episodes|
    && c'.subs == c.subs && c'.hidden == c.hidden && c'.revealed == c.revealed
    && c'.events == c.events && !c'.sendFailed && c'.sent == c.sent
    && c'.streams == c.streams[t := c'.streams[t]]
    && c'.streams[t].episode == c.streams[t].episode && c'.streams[t].receiver == c.streams[t].receiver
    && c.streams[t].cursor <= c'.streams[t].cursor <= |Log(bus, t)|
    && (c'.episodes == c.episodes
        || c'.episodes == c.episodes[c.streams[t].episode := c.episodes[c.streams[t].episode].(clean := false)])
    && (|| (Quiet(c) && Quiet(c'))
        || (SeedingTopic(c, t) && Quiet(c'))
        || (Quiet(c) && c'.pc.Forwarding? && c'.pc.topic == t))
    && PcOk(bus, c') && FootingOk(bus, c', t) && LiveCleanOk(c', t) && Front(c', t) >= Front(c, t)
  }

  lemma BooksKeptConn(bus: Bus, c: Conn, c': Conn, t: Topic)
    requires ConnOk(bus, c) && BooksKept(bus, c, c', t)
    ensures ConnOk(bus, c')
  {
    BooksKeptStreams(bus, c, c', t);
    BooksKeptHistory(bus, c, c', t);
    BooksKeptEpisodes(bus, c, c', t);
  }

  lemma BooksKeptStreams(bus: Bus, c: Conn, c': Conn, t: Topic)
    requires ConnOk(bus, c) && BooksKept(bus, c, c', t)
    ensures StreamsOk(bus, c')
  {
    forall u | u in c'.streams ensures StreamOk(bus, c', u) && FootingOk(bus, c', u) {
      assert StreamOk(bus, c, u) && FootingOk(bus, c, u);
      BooksKeptStream(bus, c, c', t, u);
    }
  }

  lemma BooksKeptStream(bus: Bus, c: Conn, c': Conn, t: Topic, u: Topic)
    requires BooksKept(bus, c, c', t) && u in c.streams && u in c'.streams
    requires StreamOk(bus, c, u) && FootingOk(bus, c, u)
    ensures StreamOk(bus, c', u) && FootingOk(bus, c', u)
  {
    assert u != t ==> c'.streams[u] == c.streams[u];
  }

  lemma BooksKeptHistory(bus: Bus, c: Conn, c': Conn, t: Topic)
    requires ConnOk(bus, c) && BooksKept(bus, c, c', t)
    ensures HistoryOk(bus, c')
  {
    forall k | 0 <= k < |c.sent| ensures DeliveryOk(bus, c', c.sent[k]) {
      BooksKeptDelivery(bus, c, c', t, c.sent[k]);
    }
  }

  lemma BooksKeptDelivery(bus: Bus, c: Conn, c': Conn, t: Topic, e: Delivery)
    requires BooksKept(bus, c, c', t) && DeliveryOk(bus, c, e)
    ensures DeliveryOk(bus, c', e)
  {
    if e.topic in c'.streams && e.topic != t {
      assert c'.streams[e.topic] == c.streams[e.topic];
    }
  }

  lemma BooksKeptEpisodes(bus: Bus, c: Conn, c': Conn, t: Topic)
    requires ConnOk(bus, c) && BooksKept(bus, c, c', t)
    ensures EpisodesOk(c')
  {
    forall u | u in c'.streams ensures LiveCleanOk(c', u) {
      assert StreamOk(bus, c, u) && LiveCleanOk(c, u);
      BooksKeptLive(bus, c, c', t, u);
    }
    forall ep | 0 <= ep < |c'.episodes| ensures CleanOk(c', ep) {
      assert CleanOk(c, ep);
    }
  }

  lemma BooksKeptLive(bus: Bus, c: Conn, c': Conn, t: Topic, u: Topic)
    requires BooksKept(bus, c, c', t) && u in c.streams && u in c'.streams
    requires StreamOk(bus, c, u) && StreamOk(bus, c, t) && LiveCleanOk(c, u)
    ensures LiveCleanOk(c', u)
  {
    assert u != t ==> c'.streams[u] == c.streams[u] && c.streams[u].episode != c.streams[t].episode;
  }

  lemma TakeMessageConn(bus: Bus, c: Conn, t: Topic)
    requires BusOk(bus) && ConnOk(bus, c) && Enabled(bus, c, TakeMessage(t))
    ensures ConnOk(bus, Do(bus, c, TakeMessage(t)).conn)
  {
    var c' := Do(bus, c, TakeMessage(t)).conn;
    TakenMessage(bus, c, t);
    assert StreamOk(bus, c, t) && LiveCleanOk(c, t);
    BooksKeptConn(bus, c, c', t);
  }

  lemma TakenMessage(bus: Bus, c: Conn, t: Topic)
    requires BusOk(bus) && StreamsOk(bus, c) && Enabled(bus, c, TakeMessage(t))
    ensures var c' := Do(bus, c, TakeMessage(t)).conn;
            PcOk(bus, c') && FootingOk(bus, c', t) && Front(c', t) == Front(c, t)
  {
    assert StreamOk(bus, c, t) && FootingOk(bus, c, t) && TopicOk(bus, t);
    TakenMessageOf(bus, c, t);
  }

  lemma TakenMessageOf(bus: Bus, c: Conn, t: Topic)
    requires Enabled(bus, c, TakeMessage(t))
    requires StreamOk(bus, c, t) && FootingOk(bus, c, t) && TopicOk(bus, t)
    ensures var c' := Do(bus, c, TakeMessage(t)).conn;
            PcOk(bus, c') && FootingOk(bus, c', t) && Front(c', t) == Front(c, t)
  {
  }

  lemma LagStreamConn(bus: Bus, c: Conn, t: Topic)
    requires BusOk(bus) && ConnOk(bus, c) && Enabled(bus, c, LagStream(t))
    ensures ConnOk(bus, Do(bus, c, LagStream(t)).conn)
  {
    assert StreamOk(bus, c, t) && FootingOk(bus, c, t) && LiveCleanOk(c, t) && TopicOk(bus, t);
    LaggedStream(bus, c, t);
    BooksKeptConn(bus, c, Do(bus, c, LagStream(t)).conn, t);
  }

  lemma LaggedStream(bus: Bus, c: Conn, t: Topic)
    requires bus.capacity >= 1 && !c.sendFailed && Enabled(bus, c, LagStream(t))
    requires StreamOk(bus, c, t) && FootingOk(bus, c, t) && LiveCleanOk(c, t) && TopicOk(bus, t)
    ensures BooksKept(bus, c, Do(bus, c, LagStream(t)).conn, t)
  {
  }

  /** The steps that only move the task along. */
  lemma MoveConn(bus: Bus, c: Conn, step: Step)
    requires BusOk(bus) && ConnOk(bus, c) && Enabled(bus, c, step)
    requires step.FinishListing? || step.FinishSubscribing? || step.TakeEvent? || step.LagEvents?
             || step.StartPublish? || step.StartCreate?
    ensures ConnOk(bus, Do(bus, c, step).conn)
  {
    match step
    case FinishListing(found) => QuietStep(bus, c, c.(pc := Subscribing(found)));
    case FinishSubscribing => QuietStep(bus, c, c.(pc := Idle));
    case TakeEvent => QuietStep(bus, c, Do(bus, c, step).conn);
    case LagEvents => QuietStep(bus, c, Do(bus, c, step).conn);
    case StartPublish(t, m) => QuietStep(bus, c, c.(pc := Sending(t, Some(m), CheckExists)));
    case StartCreate(t) => QuietStep(bus, c, c.(pc := Sending(t, None, CheckAgain)));
  }

  /** Every step of a connection keeps its own invariant. */
  lemma StepConn(bus: Bus, c: Conn, step: Step)
    requires BusOk(bus) && ConnOk(bus, c) && Enabled(bus, c, step)
    ensures ConnOk(Do(bus, c, step).bus, Do(bus, c, step).conn)
  {
    if step.SendStep? {
      SendConn(bus, c);
    } else if step.Subscribe? || step.Unsubscribe? {
      CommandConn(bus, c, step);
    } else if step.ClientTakes? || step.ClientCloses? {
      ClientStepConn(bus, c, step);
    } else if step.NextTopic? || step.Seed? || step.TakeMessage? || step.LagStream? || step.Forward? {
      StreamConn(bus, c, step);
    } else {
      MoveConn(bus, c, step);
    }
  }

  lemma StreamConn(bus: Bus, c: Conn, step: Step)
    requires BusOk(bus) && ConnOk(bus, c) && Enabled(bus, c, step)
    requires step.NextTopic? || step.Seed? || step.TakeMessage? || step.LagStream? || step.Forward?
    ensures ConnOk(bus, Do(bus, c, step).conn)
  {
    match step
    case NextTopic => NextTopicConn(bus, c);
    case Seed => SeedConn(bus, c);
    case TakeMessage(t) => TakeMessageConn(bus, c, t);
    case LagStream(t) => LagStreamConn(bus, c, t);
    case Forward => ForwardConn(bus, c);
  }

  lemma CommandConn(bus: Bus, c: Conn, step: Step)
    requires BusOk(bus) && ConnOk(bus, c) && Enabled(bus, c, step) && (step.Subscribe? || step.Unsubscribe?)
    ensures ConnOk(bus, Do(bus, c, step).conn)
  {
    match step
    case Subscribe(p) => SubscribeConn(bus, c, p);
    case Unsubscribe(p) => UnsubscribeConn(bus, c, p);
  }

  lemma ClientStepConn(bus: Bus, c: Conn, step: Step)
    requires ConnOk(bus, c) && Enabled(bus, c, step) && (step.ClientTakes? || step.ClientCloses?)
    ensures ConnOk(bus, Do(bus, c, step).conn)
  {
    var c' := Do(bus, c, step).conn;
    ClientShape(bus, c, step);
    ClientConn(bus, c, c'.queued, c'.open);
  }

  lemma ClientShape(bus: Bus, c: Conn, step: Step)
    requires Enabled(bus, c, step) && (step.ClientTakes? || step.ClientCloses?)
    ensures var c' := Do(bus, c, step).conn; c' == c.(queued := c'.queued, open := c'.open)
  {
  }

  lemma ClientConn(bus: Bus, c: Conn, queued: nat, open: bool)
    requires ConnOk(bus, c)
    ensures ConnOk(bus, c.(queued := queued, open := open))
  {
    FewerStreamsConn(bus, c, c.(queued := queued, open := open));
  }
}
