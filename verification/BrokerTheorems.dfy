/** What holds in every reachable state of the broker, for every connection and topic. */
module BrokerTheorems {
  import opened Options
  import opened Subscriptions
  import opened Broker
  import opened BrokerInvariant
  import opened BrokerSafety

  ghost predicate Reachable(s: System) {
    exists trace :: Behaviour(trace) && trace[|trace| - 1] == s
  }

  lemma ReachableInv(s: System)
    requires Reachable(s)
    ensures Inv(s)
  {
    var trace :| Behaviour(trace) && trace[|trace| - 1] == s;
    Safety(trace, |trace| - 1);
  }

  ghost predicate ReachableConn(s: System, id: nat) {
    Reachable(s) && id in s.conns
  }

  lemma ReachableConnOk(s: System, id: nat)
    requires ReachableConn(s, id)
    ensures BusOk(s.bus) && ConnOk(s.bus, s.conns[id])
  {
    ReachableInv(s);
  }

  // ---------------------------------------------------------------------------
  // Discovery

  /** Between two loop iterations, every topic a connection matches has a stream, or its event is still in the
      connection's queue, or its publisher is about to announce it - unless its event was skipped since the
      connection last listed the topics, or it is the empty topic and a removal brought that back since then. */
  lemma Coverage(s: System, id: nat, t: Topic)
    requires ReachableConn(s, id) && s.conns[id].pc.Idle? && Governed(s.conns[id], t)
    requires t in s.bus.topics && SubCheck(s.conns[id].subs, t)
    ensures t in s.conns[id].streams || Pending(s.bus, s.conns[id], t) || Announcing(s.conns, t)
  {
    ReachableInv(s);
    assert Reached(s, s.conns[id], t);
  }

  /** With documented counts the second exception never arises. */
  lemma CountedIsGoverned(s: System, id: nat, t: Topic)
    requires ReachableConn(s, id) && s.conns[id].subs.Counted?
    ensures Governed(s.conns[id], t) <==> t !in s.conns[id].missed
    ensures !s.conns[id].hidden
  {
    ReachableConnOk(s, id);
  }

  /** The topic exists and matches, and the connection has no way of hearing of it. */
  ghost predicate Uncovered(s: System, id: nat, t: Topic)
    requires id in s.conns
  {
    t in s.bus.topics && SubCheck(s.conns[id].subs, t) && !Reached(s, s.conns[id], t)
  }

  /** A connection that covers all it matches loses a topic by unsubscribing exactly when it is the empty topic, the
      removal brings the empty pattern back, and the topic exists without a stream, a pending event or a publisher
      about to announce it. */
  lemma UnsubscribeUncoversIff(s: System, id: nat, pattern: string, t: Topic)
    requires ReachableConn(s, id) && Possible(s, Run(id, Unsubscribe(pattern)))
    requires Governed(s.conns[id], t)
    ensures Uncovered(Apply(s, Run(id, Unsubscribe(pattern))), id, t) <==>
            && t == [] && BringsBackEmpty(s.conns[id].subs, pattern)
            && t in s.bus.topics && !Reached(s, s.conns[id], t)
  {
    ReachableInv(s);
    var s', c := Apply(s, Run(id, Unsubscribe(pattern))), s.conns[id];
    RemoveStartsMatchIff(c.subs, pattern, t);
    UnsubscribeReaches(s, id, pattern, t);
    assert t in s.bus.topics && SubCheck(c.subs, t) ==> Reached(s, c, t);
  }

  /** Unsubscribing leaves alone whatever reaches a topic that still matches. */
  lemma UnsubscribeReaches(s: System, id: nat, pattern: string, t: Topic)
    requires Possible(s, Run(id, Unsubscribe(pattern))) && SubsValid(s.conns[id].subs)
    ensures var s' := Apply(s, Run(id, Unsubscribe(pattern)));
            SubCheck(s'.conns[id].subs, t) ==> (Reached(s', s'.conns[id], t) <==> Reached(s, s.conns[id], t))
  {
    var s' := Apply(s, Run(id, Unsubscribe(pattern)));
    assert forall k :: k in s.conns ==> (AtAnnounce(s'.conns[k], t) <==> AtAnnounce(s.conns[k], t));
    assert Announcing(s'.conns, t) <==> Announcing(s.conns, t);
    assert Pending(s'.bus, s'.conns[id], t) <==> Pending(s.bus, s.conns[id], t);
  }

  /** A lag of the topic events loses exactly the matching topics whose every pending event it skips, if they have
      no stream and nobody is about to announce them. */
  lemma LagUncoversIff(s: System, id: nat, t: Topic)
    requires ReachableConn(s, id) && Possible(s, Run(id, LagEvents)) && Governed(s.conns[id], t)
    ensures var c, n := s.conns[id], |s.bus.created| - s.bus.capacity;
            Uncovered(Apply(s, Run(id, LagEvents)), id, t) <==>
              && SubCheck(c.subs, t) && t !in c.streams && !Announcing(s.conns, t)
              && t in s.bus.created[c.events..n] && t !in s.bus.created[n..]
  {
    var c, n := s.conns[id], |s.bus.created| - s.bus.capacity;
    LagReaches(s, id, t);
    BeforeLag(s, id, t);
    InParts(s.bus.created, c.events, n, t);
  }

  lemma InParts(xs: seq<Topic>, a: nat, n: nat, t: Topic)
    requires a <= n <= |xs|
    ensures t in xs[a..] <==> t in xs[a..n] || t in xs[n..]
  {
    assert xs[a..] == xs[a..n] + xs[n..];
  }

  /** What reaches a matching topic of a connection between two iterations. */
  lemma BeforeLag(s: System, id: nat, t: Topic)
    requires ReachableConn(s, id) && s.conns[id].pc.Idle? && Governed(s.conns[id], t)
    ensures s.conns[id].events <= |s.bus.created|
    ensures t in s.bus.created ==> t in s.bus.topics
    ensures t in s.bus.topics && SubCheck(s.conns[id].subs, t) ==>
      t in s.conns[id].streams || t in s.bus.created[s.conns[id].events..] || Announcing(s.conns, t)
  {
    ReachableConnOk(s, id);
    PendingIffIn(s.bus, s.conns[id], t);
    if t in s.bus.topics && SubCheck(s.conns[id].subs, t) {
      Coverage(s, id, t);
    }
  }

  lemma PendingIffIn(bus: Bus, c: Conn, t: Topic)
    requires c.events <= |bus.created|
    ensures Pending(bus, c, t) <==> t in bus.created[c.events..]
  {
    if t in bus.created[c.events..] {
      var k :| 0 <= k < |bus.created[c.events..]| && bus.created[c.events..][k] == t;
      assert bus.created[c.events + k] == t;
    }
    if i :| c.events <= i < |bus.created| && bus.created[i] == t {
      assert bus.created[c.events..][i - c.events] == t;
    }
  }

  /** After the lag a topic is reached by its stream, a retained event or its publisher. */
  lemma LagReaches(s: System, id: nat, t: Topic)
    requires Possible(s, Run(id, LagEvents))
    ensures var s' := Apply(s, Run(id, LagEvents));
            && s'.bus == s.bus && s'.conns[id].subs == s.conns[id].subs
            && (Reached(s', s'.conns[id], t) <==>
                  || t in s.conns[id].streams || Announcing(s.conns, t)
                  || t in s.bus.created[|s.bus.created| - s.bus.capacity..])
  {
    var s' := Apply(s, Run(id, LagEvents));
    PendingIffIn(s'.bus, s'.conns[id], t);
    assert forall k :: k in s.conns ==> (AtAnnounce(s'.conns[k], t) <==> AtAnnounce(s.conns[k], t));
    assert Announcing(s'.conns, t) <==> Announcing(s.conns, t);
  }

  /** The connection is between loop iterations, has taken every topic event, and nobody is mid-send. */
  ghost predicate Settled(s: System, id: nat)
    requires id in s.conns
  {
    var c := s.conns[id];
    && c.pc.Idle? && c.events == |s.bus.created|
    && forall k :: k in s.conns ==> !s.conns[k].pc.Sending?
  }

  lemma SettledHasStream(s: System, id: nat, t: Topic)
    requires ReachableConn(s, id) && Settled(s, id)
    requires t in s.bus.topics && SubCheck(s.conns[id].subs, t) && Governed(s.conns[id], t)
    ensures t in s.conns[id].streams
  {
    Coverage(s, id, t);
  }

  // ---------------------------------------------------------------------------
  // Delivery

  /** Delivery k is the last one enqueued on topic t. */
  ghost predicate LastOn(sent: seq<Delivery>, t: Topic, k: nat) {
    k < |sent| && sent[k].topic == t && forall j :: k < j < |sent| ==> sent[j].topic != t
  }

  lemma {:induction false} LastOnExists(sent: seq<Delivery>, t: Topic, j: nat) returns (k: nat)
    requires j < |sent| && sent[j].topic == t
    ensures j <= k && LastOn(sent, t, k)
    decreases |sent| - j
  {
    if i :| j < i < |sent| && sent[i].topic == t {
      k := LastOnExists(sent, t, i);
    } else {
      k := j;
    }
  }

  /** Convergence: once a connection is settled and the stream of a matching topic is drained, the last message
      enqueued on it is the newest of its log - even if the stream lagged on the way. The one exception is a
      retained message that found the client's queue full and was followed by nothing. */
  lemma Convergence(s: System, id: nat, t: Topic) returns (k: nat)
    requires ReachableConn(s, id) && Settled(s, id)
    requires t in s.bus.topics && Log(s.bus, t) != []
    requires SubCheck(s.conns[id].subs, t) && Governed(s.conns[id], t)
    requires t in s.conns[id].streams ==>
      s.conns[id].streams[t].cursor == |Log(s.bus, t)| && !s.conns[id].streams[t].footing.SeedDropped?
    ensures LastOn(s.conns[id].sent, t, k)
    ensures s.conns[id].sent[k].message == Log(s.bus, t)[|Log(s.bus, t)| - 1]
    ensures s.bus.topics[t].lastMessage == Some(s.conns[id].sent[k].message)
  {
    SettledHasStream(s, id, t);
    ReachableStream(s, id, t);
    assert WasSent(s.conns[id].sent, t, |Log(s.bus, t)| - 1);
    k := SentIsNewest(s.bus, s.conns[id], t);
  }

  /** The newest entry of t's log is the last one enqueued on t. */
  ghost predicate UpToDate(bus: Bus, c: Conn, t: Topic) {
    exists k: nat :: LastOn(c.sent, t, k) && c.sent[k].index == |Log(bus, t)| - 1
  }

  /** In the same situation, dropped retained messages included: the connection is up to date if and only if the
      retained message was not dropped or an earlier episode had already enqueued it. */
  lemma ConvergesIff(s: System, id: nat, t: Topic)
    requires ReachableConn(s, id) && Settled(s, id)
    requires t in s.bus.topics && Log(s.bus, t) != []
    requires SubCheck(s.conns[id].subs, t) && Governed(s.conns[id], t)
    requires t in s.conns[id].streams ==> s.conns[id].streams[t].cursor == |Log(s.bus, t)|
    ensures t in s.conns[id].streams
    ensures var c := s.conns[id];
            UpToDate(s.bus, c, t) <==>
              !c.streams[t].footing.SeedDropped? || SentBefore(c, t, c.streams[t].episode, |Log(s.bus, t)| - 1)
  {
    SettledHasStream(s, id, t);
    ReachableStream(s, id, t);
    DrainedIsNewestIff(s.bus, s.conns[id], t);
  }

  lemma DrainedIsNewestIff(bus: Bus, c: Conn, t: Topic)
    requires t in bus.topics && TopicOk(bus, t) && t in c.streams && FootingOk(bus, c, t)
    requires HistoryOk(bus, c) && OrderOk(c.sent) && c.pc.Idle?
    requires Log(bus, t) != [] && c.streams[t].cursor == |Log(bus, t)|
    ensures UpToDate(bus, c, t) <==>
              !c.streams[t].footing.SeedDropped? || SentBefore(c, t, c.streams[t].episode, |Log(bus, t)| - 1)
  {
    if WasSent(c.sent, t, |Log(bus, t)| - 1) {
      var k := SentIsNewest(bus, c, t);
    } else {
      assert !SentBefore(c, t, c.streams[t].episode, |Log(bus, t)| - 1);
    }
    if c.streams[t].footing.SeedDropped? && UpToDate(bus, c, t) {
      var k: nat :| LastOn(c.sent, t, k) && c.sent[k].index == |Log(bus, t)| - 1;
      assert DeliveryOk(bus, c, c.sent[k]);
    }
  }

  /** An episode before the given one enqueued the entry. */
  ghost predicate SentBefore(c: Conn, t: Topic, episode: nat, index: int) {
    exists k :: 0 <= k < |c.sent| && c.sent[k].topic == t && c.sent[k].index == index && c.sent[k].episode < episode
  }

  lemma ReachableStream(s: System, id: nat, t: Topic)
    requires ReachableConn(s, id) && t in s.conns[id].streams
    ensures StreamOk(s.bus, s.conns[id], t) && FootingOk(s.bus, s.conns[id], t)
    ensures TopicOk(s.bus, t) && HistoryOk(s.bus, s.conns[id]) && OrderOk(s.conns[id].sent)
  {
    ReachableConnOk(s, id);
    assert StreamOk(s.bus, s.conns[id], t);
  }

  lemma SentIsNewest(bus: Bus, c: Conn, t: Topic) returns (k: nat)
    requires t in bus.topics && TopicOk(bus, t) && HistoryOk(bus, c) && OrderOk(c.sent)
    requires Log(bus, t) != [] && WasSent(c.sent, t, |Log(bus, t)| - 1)
    ensures LastOn(c.sent, t, k) && c.sent[k].index == |Log(bus, t)| - 1
    ensures c.sent[k].message == Log(bus, t)[|Log(bus, t)| - 1]
    ensures bus.topics[t].lastMessage == Some(c.sent[k].message)
  {
    var n := |Log(bus, t)|;
    var j: nat :| j < |c.sent| && c.sent[j].topic == t && c.sent[j].index == n - 1;
    k := LastOnExists(c.sent, t, j);
    assert DeliveryOk(bus, c, c.sent[k]);
    assert j < k ==> InOrder(c.sent[j], c.sent[k]);
  }

  /** In order: over the whole life of a connection, with lag, drops and resubscriptions, the messages enqueued on a
      topic never go back in its log. Only the message retained when the topic was subscribed again can come
      a second time; within an episode none does. */
  lemma InOrderOnceUnlessResubscribed(s: System, id: nat, j: nat, k: nat)
    requires ReachableConn(s, id) && j < k < |s.conns[id].sent|
    requires s.conns[id].sent[j].topic == s.conns[id].sent[k].topic
    ensures var e, f := s.conns[id].sent[j], s.conns[id].sent[k];
            && 0 <= e.index <= f.index < |Log(s.bus, e.topic)|
            && e.message == Log(s.bus, e.topic)[e.index] && f.message == Log(s.bus, e.topic)[f.index]
            && f.episode < |s.conns[id].episodes|
            && (e.index == f.index ==>
                  e.episode < f.episode && f.index == s.conns[id].episodes[f.episode].start - 1)
  {
    ReachableInv(s);
    var c := s.conns[id];
    assert DeliveryOk(s.bus, c, c.sent[j]) && DeliveryOk(s.bus, c, c.sent[k]) && InOrder(c.sent[j], c.sent[k]);
  }

  /** The connection has subscribed no topic twice. */
  ghost predicate OneEpisodePerTopic(episodes: seq<Episode>) {
    forall e, f :: 0 <= e < f < |episodes| ==> episodes[e].topic != episodes[f].topic
  }

  /** At most once: a connection that never came back to a topic has every message enqueued at most once. */
  lemma AtMostOnce(s: System, id: nat, j: nat, k: nat)
    requires ReachableConn(s, id) && j < k < |s.conns[id].sent|
    requires s.conns[id].sent[j].topic == s.conns[id].sent[k].topic
    requires OneEpisodePerTopic(s.conns[id].episodes)
    ensures s.conns[id].sent[j].index < s.conns[id].sent[k].index
  {
    InOrderOnceUnlessResubscribed(s, id, j, k);
    ReachableConnOk(s, id);
    var c := s.conns[id];
    assert DeliveryOk(s.bus, c, c.sent[j]) && DeliveryOk(s.bus, c, c.sent[k]);
  }

  /** The step enqueues an entry of a topic's log that has been enqueued before. */
  ghost predicate Repeats(c: Conn, c': Conn) {
    && |c'.sent| == |c.sent| + 1
    && WasSent(c.sent, c'.sent[|c.sent|].topic, c'.sent[|c.sent|].index)
  }

  /** A step repeats a message exactly when it hands a retained message to a client with room in its queue, and an
      earlier episode had enqueued the entry just before the new stream's cursor. */
  lemma RepeatsIff(s: System, id: nat, step: Step)
    requires ReachableConn(s, id) && Possible(s, Run(id, step))
    ensures var c := s.conns[id];
            Repeats(c, Apply(s, Run(id, step)).conns[id]) <==>
              && step.Seed? && c.open && c.queued < c.queueCapacity && c.pc.topic in c.streams
              && var r := c.streams[c.pc.topic]; SentBefore(c, c.pc.topic, r.episode, r.cursor - 1)
  {
    ReachableConnOk(s, id);
    var c := s.conns[id];
    if step.Seed? {
      SeedRepeatsIff(s.bus, c);
    } else if step.Forward? {
      ForwardIsNew(s.bus, c);
    } else {
      OnlySeedAndForwardEnqueue(s.bus, c, step);
    }
  }

  lemma SeedRepeatsIff(bus: Bus, c: Conn)
    requires HistoryOk(bus, c) && c.pc.Seeding? && SeedingOk(bus, c)
    ensures Repeats(c, SeedClient(c)) <==>
              && c.open && c.queued < c.queueCapacity
              && SentBefore(c, c.pc.topic, c.streams[c.pc.topic].episode, c.streams[c.pc.topic].cursor - 1)
  {
    var t := c.pc.topic;
    var r := c.streams[t];
    if WasSent(c.sent, t, r.cursor - 1) {
      var k :| 0 <= k < |c.sent| && c.sent[k].topic == t && c.sent[k].index == r.cursor - 1;
      assert DeliveryOk(bus, c, c.sent[k]);
      assert SentBefore(c, t, r.episode, r.cursor - 1);
    }
    if SentBefore(c, t, r.episode, r.cursor - 1) {
      assert WasSent(c.sent, t, r.cursor - 1);
    }
  }

  lemma ForwardIsNew(bus: Bus, c: Conn)
    requires HistoryOk(bus, c) && c.pc.Forwarding? && ForwardingOk(bus, c)
    ensures !Repeats(c, ForwardToClient(c))
  {
    forall k | 0 <= k < |c.sent| && c.sent[k].topic == c.pc.topic ensures c.sent[k].index != c.pc.index {
      assert DeliveryOk(bus, c, c.sent[k]);
    }
  }

  /** The messages enqueued in one episode, in order. */
  ghost function Payload(sent: seq<Delivery>, episode: nat): seq<Message> {
    if sent == [] then [] else
    var e := sent[|sent| - 1];
    Payload(sent[..|sent| - 1], episode) + if e.episode == episode then [e.message] else []
  }

  lemma {:induction false} PayloadIsLogged(sent: seq<Delivery>, episode: nat, log: seq<Message>)
    requires forall k :: 0 <= k < |sent| && sent[k].episode == episode ==>
               0 <= sent[k].index < |log| && sent[k].message == log[sent[k].index]
    ensures |Payload(sent, episode)| == |Indices(sent, episode)|
    ensures forall k :: 0 <= k < |Indices(sent, episode)| ==>
              0 <= Indices(sent, episode)[k] < |log| && Payload(sent, episode)[k] == log[Indices(sent, episode)[k]]
  {
    if sent != [] {
      PayloadIsLogged(sent[..|sent| - 1], episode, log);
    }
  }

  /** No gap: in an episode that never lagged and whose retained message was not dropped, what was enqueued is one
      contiguous segment of the topic's log, from the message retained at subscribe time on; while the
      episode lasts and nothing is in flight, the segment reaches the stream's cursor. */
  lemma GapFreeEpisode(s: System, id: nat, episode: nat)
    requires ReachableConn(s, id) && episode < |s.conns[id].episodes| && s.conns[id].episodes[episode].clean
    ensures var c := s.conns[id];
            var e, n := c.episodes[episode], |Payload(c.sent, episode)|;
            && (n > 0 ==> First(e) + n <= |Log(s.bus, e.topic)|
                          && Payload(c.sent, episode) == Log(s.bus, e.topic)[First(e)..First(e) + n])
            && (e.topic in c.streams && c.streams[e.topic].episode == episode && c.pc.Idle? ==>
                  First(e) + n == c.streams[e.topic].cursor)
  {
    ReachableBooks(s, id);
    var c := s.conns[id];
    CleanEpisode(s.bus, c, episode);
    assert c.episodes[episode].topic in c.streams ==> LiveCleanOk(c, c.episodes[episode].topic);
  }

  /** No gap if and only if clean: while an episode lasts and nothing is in flight, what was enqueued is everything
      from the message retained at subscribe time up to the cursor exactly when the stream never lagged and its
      retained message was not dropped; otherwise it falls short. */
  lemma LiveEpisodeIff(s: System, id: nat, t: Topic)
    requires ReachableConn(s, id) && s.conns[id].pc.Idle? && t in s.conns[id].streams
    ensures var c, r := s.conns[id], s.conns[id].streams[t];
            && r.episode < |c.episodes|
            && var e, sent := c.episodes[r.episode], Payload(c.sent, r.episode);
               && First(e) + |sent| <= r.cursor <= |Log(s.bus, t)|
               && (e.clean <==> First(e) + |sent| == r.cursor)
               && (e.clean <==> sent == Log(s.bus, t)[First(e)..r.cursor])
  {
    ReachableStream(s, id, t);
    ReachableBooks(s, id);
    var c := s.conns[id];
    var ep := c.streams[t].episode;
    assert LiveCleanOk(c, t);
    EpisodePayload(s.bus, c, ep);
    if c.episodes[ep].clean {
      CleanEpisode(s.bus, c, ep);
    }
  }

  lemma EpisodePayload(bus: Bus, c: Conn, episode: nat)
    requires HistoryOk(bus, c) && episode < |c.episodes|
    ensures var log := Log(bus, c.episodes[episode].topic);
            && |Payload(c.sent, episode)| == |Indices(c.sent, episode)|
            && forall k :: 0 <= k < |Indices(c.sent, episode)| ==>
                 0 <= Indices(c.sent, episode)[k] < |log|
                 && Payload(c.sent, episode)[k] == log[Indices(c.sent, episode)[k]]
  {
    var log := Log(bus, c.episodes[episode].topic);
    forall k | 0 <= k < |c.sent| && c.sent[k].episode == episode
      ensures 0 <= c.sent[k].index < |log| && c.sent[k].message == log[c.sent[k].index] {
      assert DeliveryOk(bus, c, c.sent[k]);
    }
    PayloadIsLogged(c.sent, episode, log);
  }

  lemma ReachableBooks(s: System, id: nat)
    requires ReachableConn(s, id)
    ensures HistoryOk(s.bus, s.conns[id]) && EpisodesOk(s.conns[id])
  {
    ReachableConnOk(s, id);
  }

  lemma CleanEpisode(bus: Bus, c: Conn, episode: nat)
    requires HistoryOk(bus, c) && EpisodesOk(c) && episode < |c.episodes| && c.episodes[episode].clean
    ensures var e, n := c.episodes[episode], |Payload(c.sent, episode)|;
            && n == |Indices(c.sent, episode)|
            && (n > 0 ==> First(e) + n <= |Log(bus, e.topic)|
                          && Payload(c.sent, episode) == Log(bus, e.topic)[First(e)..First(e) + n])
  {
    var e, log := c.episodes[episode], Log(bus, c.episodes[episode].topic);
    EpisodePayload(bus, c, episode);
    assert CleanOk(c, episode);
    SegmentOf(Indices(c.sent, episode), Payload(c.sent, episode), log, First(e));
  }

  lemma SegmentOf(xs: seq<int>, payload: seq<Message>, log: seq<Message>, first: nat)
    requires |payload| == |xs| && Contiguous(xs, first)
    requires forall k :: 0 <= k < |xs| ==> 0 <= xs[k] < |log| && payload[k] == log[xs[k]]
    ensures |xs| > 0 ==> first + |xs| <= |log| && payload == log[first..first + |xs|]
  {
    if |xs| > 0 {
      assert xs[|xs| - 1] == first + |xs| - 1;
    }
  }

  // ---------------------------------------------------------------------------
  // Streams and subscriptions

  /** With documented counts a connection only ever has streams for topics it matches; as written this lasts until
      an insertion is about to hide a pattern. */
  lemma StreamsMatch(s: System, id: nat, t: Topic)
    requires ReachableConn(s, id) && t in s.conns[id].streams
    requires s.conns[id].subs.Counted? || !s.conns[id].hidden
    ensures t in s.bus.topics && SubCheck(s.conns[id].subs, t)
  {
    ReachableInv(s);
    assert StreamOk(s.bus, s.conns[id], t);
  }

  /** Once settled, the streams are exactly the existing topics that match, as far as coverage is promised. */
  lemma StreamSetAgreement(s: System, id: nat, t: Topic)
    requires ReachableConn(s, id) && Settled(s, id)
    requires Governed(s.conns[id], t) && (s.conns[id].subs.Counted? || !s.conns[id].hidden)
    ensures t in s.conns[id].streams <==> t in s.bus.topics && SubCheck(s.conns[id].subs, t)
  {
    ReachableConnOk(s, id);
    if t in s.conns[id].streams {
      StreamsMatch(s, id, t);
    } else if t in s.bus.topics && SubCheck(s.conns[id].subs, t) {
      SettledHasStream(s, id, t);
    }
  }

  /** A subscription strands a matching stream - the stream stays while its topic stops to match - exactly when only
      patterns that the insertion takes off the list matched the topic, and the new one does not. The next
      unsubscription takes a stranded stream away, unless it makes the topic match again. */
  lemma SubscribeStrandsIff(s: System, id: nat, pattern: string, t: Topic)
    requires ReachableConn(s, id) && Possible(s, Run(id, Subscribe(pattern)))
    requires t in s.conns[id].streams && SubCheck(s.conns[id].subs, t)
    ensures var c' := Apply(s, Run(id, Subscribe(pattern))).conns[id];
            && t in c'.streams
            && (!SubCheck(c'.subs, t) <==> EndsMatch(s.conns[id].subs, pattern, t))
            && forall q :: var d := Do(s.bus, c'.(pc := Idle), Unsubscribe(q)).conn;
                           t in d.streams <==> SubCheck(d.subs, t)
  {
    ReachableConnOk(s, id);
    InsertEndsMatchIff(s.conns[id].subs, pattern, t);
    var c' := Apply(s, Run(id, Subscribe(pattern))).conns[id];
    forall q ensures var d := Do(s.bus, c'.(pc := Idle), Unsubscribe(q)).conn; t in d.streams <==> SubCheck(d.subs, t) {
      UnsubscribeKeeps(s.bus, c'.(pc := Idle), q, t);
    }
  }

  lemma UnsubscribeKeeps(bus: Bus, c: Conn, pattern: string, t: Topic)
    requires c.pc.Idle?
    ensures var d := Do(bus, c, Unsubscribe(pattern)).conn; t in d.streams <==> t in c.streams && SubCheck(d.subs, t)
  {
  }

  /** Whatever is enqueued belongs to a topic the connection has a stream for, and so to one it matches at that moment;
      as written, unless an insertion may have hidden a pattern since streams were last pruned. */
  lemma OnlyMatchingEnqueued(s: System, id: nat, step: Step)
    requires ReachableConn(s, id) && Possible(s, Run(id, step))
    ensures var c, c' := s.conns[id], Apply(s, Run(id, step)).conns[id];
            || c'.sent == c.sent
            || (&& |c'.sent| == |c.sent| + 1
                && c'.sent[|c.sent|].topic in c.streams
                && (c.subs.Counted? || !c.hidden ==> SubCheck(c.subs, c'.sent[|c.sent|].topic)))
  {
    ReachableConnOk(s, id);
    StepEnqueuesStreamed(s.bus, s.conns[id], step);
  }

  lemma StepEnqueuesStreamed(bus: Bus, c: Conn, step: Step)
    requires PcOk(bus, c) && Enabled(bus, c, step)
    ensures var c' := Do(bus, c, step).conn;
            c'.sent == c.sent || (|c'.sent| == |c.sent| + 1 && c'.sent[|c.sent|].topic in c.streams)
  {
    if !step.Seed? && !step.Forward? {
      OnlySeedAndForwardEnqueue(bus, c, step);
    }
  }

  lemma OnlySeedAndForwardEnqueue(bus: Bus, c: Conn, step: Step)
    requires Enabled(bus, c, step) && !step.Seed? && !step.Forward?
    ensures Do(bus, c, step).conn.sent == c.sent
  {
    if step.SendStep? {
      SendShape(bus, c);
    }
  }

  // ---------------------------------------------------------------------------
  // Racing creators

  lemma NextGrows(s: System, s': System)
    requires Inv(s) && Next(s, s')
    ensures Grows(s.bus, s'.bus)
  {
    var a :| Possible(s, a) && s' == Apply(s, a);
    ActionInv(s, a);
  }

  lemma LastStepGrows(trace: seq<System>, j: nat)
    requires Behaviour(trace) && 0 < j < |trace|
    ensures Grows(trace[j - 1].bus, trace[j].bus)
  {
    Safety(trace, j - 1);
    assert Next(trace[j - 1], trace[j - 1 + 1]);
    NextGrows(trace[j - 1], trace[j]);
  }

  ghost predicate Growing(buses: seq<Bus>) {
    forall i {:trigger buses[i]} :: 0 < i < |buses| ==> Grows(buses[i - 1], buses[i])
  }

  lemma {:induction false} GrowingThroughout(buses: seq<Bus>, i: nat, j: nat)
    requires Growing(buses) && i <= j < |buses|
    ensures Grows(buses[i], buses[j])
  {
    if i < j {
      GrowingThroughout(buses, i, j - 1);
      GrowsTransitive(buses[i], buses[j - 1], buses[j]);
    }
  }

  /** Over any stretch of a behaviour topics are only added, keep their sender, and logs and events only grow. */
  lemma TopicsOnlyGrow(trace: seq<System>, i: nat, j: nat)
    requires Behaviour(trace) && i <= j < |trace|
    ensures Grows(trace[i].bus, trace[j].bus)
  {
    var buses := seq(|trace|, k requires 0 <= k < |trace| => trace[k].bus);
    forall k | 0 < k < |buses| ensures Grows(buses[k - 1], buses[k]) {
      LastStepGrows(trace, k);
    }
    GrowingThroughout(buses, i, j);
  }

  lemma GrowsTransitive(a: Bus, b: Bus, c: Bus)
    requires Grows(a, b) && Grows(b, c)
    ensures Grows(a, c)
  {
    forall t | t in a.topics
      ensures t in c.topics && c.topics[t].sender == a.topics[t].sender && Log(a, t) <= Log(c, t) {
      assert t in b.topics && Log(a, t) <= Log(b, t) <= Log(c, t);
    }
  }

  /** Racing creators are safe: every event names an existing topic, every topic has an event once its creators are
      done, every stream listens to the sender in the map, and no send has returned its error. */
  lemma RacingCreators(s: System, id: nat, t: Topic)
    requires ReachableConn(s, id)
    ensures t in s.bus.created ==> t in s.bus.topics
    ensures t in s.bus.topics && !Announcing(s.conns, t) ==> t in s.bus.created
    ensures t in s.conns[id].streams ==> t in s.bus.topics && s.conns[id].streams[t].receiver == s.bus.topics[t].sender
    ensures !s.conns[id].sendFailed
  {
    ReachableInv(s);
    if t in s.conns[id].streams {
      assert StreamOk(s.bus, s.conns[id], t);
    }
  }

  /** A second event for a topic that already has a stream, or one for a topic that does not match, changes nothing
      but the event cursor, whatever others do to the bus meanwhile. */
  lemma DuplicateEventIsHarmless(bus: Bus, bus1: Bus, bus2: Bus, c: Conn)
    requires Enabled(bus, c, TakeEvent)
    requires bus.created[c.events] in c.streams || !SubCheck(c.subs, bus.created[c.events])
    ensures var c1 := Do(bus, c, TakeEvent).conn;
            && Enabled(bus1, c1, NextTopic)
            && var c2 := Do(bus1, c1, NextTopic).conn;
               Enabled(bus2, c2, FinishSubscribing) && Do(bus2, c2, FinishSubscribing).conn == c.(events := c.events + 1)
  {
    var c1 := Do(bus, c, TakeEvent).conn;
    assert c1.pc.todo[1..] == [];
  }

  // ---------------------------------------------------------------------------
  // The retained message

  /** In every reachable state the retained message is the last of the topic's log, and there is none exactly while
      the log is empty. */
  lemma RetainedIsNewest(s: System, t: Topic)
    requires Reachable(s) && t in s.bus.topics
    ensures s.bus.topics[t].lastMessage.None? <==> Log(s.bus, t) == []
    ensures s.bus.topics[t].lastMessage.Some? ==>
              s.bus.topics[t].lastMessage.value == Log(s.bus, t)[|Log(s.bus, t)| - 1]
  {
    ReachableInv(s);
    assert TopicOk(s.bus, t);
  }

  /** Subscribing pairs a cursor with exactly the message before it: nothing falls between retained and live. */
  lemma SubscriptionPairs(s: System, id: nat)
    requires ReachableConn(s, id) && Possible(s, Run(id, NextTopic))
    ensures var c, c' := s.conns[id], Apply(s, Run(id, NextTopic)).conns[id];
            var t := c.pc.todo[0];
            t !in c.streams && t in c'.streams ==>
              && c'.streams[t].cursor == |Log(s.bus, t)|
              && (c'.pc.Seeding? <==> c'.streams[t].cursor > 0)
              && (c'.pc.Seeding? ==> c'.pc.topic == t && c'.pc.message == Log(s.bus, t)[c'.streams[t].cursor - 1])
  {
    ReachableConnOk(s, id);
    if s.conns[id].pc.todo[0] !in s.conns[id].streams {
      NewStreamPairs(s.bus, s.conns[id], s.conns[id].pc.todo[0], s.conns[id].pc.todo[1..]);
    }
  }

  lemma NewStreamPairs(bus: Bus, c: Conn, t: Topic, rest: seq<Topic>)
    requires BusOk(bus) && c.pc.Subscribing? && t !in c.streams
    ensures var c' := SubscribeTo(bus, c, t, rest);
            t in c'.streams ==>
              && c'.streams[t].cursor == |Log(bus, t)|
              && (c'.pc.Seeding? <==> c'.streams[t].cursor > 0)
              && (c'.pc.Seeding? ==> c'.pc.topic == t && c'.pc.message == Log(bus, t)[c'.streams[t].cursor - 1])
  {
    if t in bus.topics {
      assert TopicOk(bus, t);
    }
  }
}
