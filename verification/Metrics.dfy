/**
 Metrics fed over bounded FIFO channels: the connection count, updated by every connection
 once when it starts and once when it ends, and throughput, reset at every report.
 */
module Metrics {

  ghost function Sum(updates: seq<int>): int {
    if updates == [] then 0 else updates[0] + Sum(updates[1..])
  }

  /** Applied to value in order, the updates never take it below zero. */
  ghost predicate Safe(value: int, updates: seq<int>)
    decreases |updates|
  {
    value >= 0 && (updates != [] ==> Safe(value + updates[0], updates[1..]))
  }

  lemma {:induction false} SumSnoc(updates: seq<int>, n: int)
    ensures Sum(updates + [n]) == Sum(updates) + n
  {
    if updates == [] {
      assert [n][1..] == [];
    } else {
      assert (updates + [n])[1..] == updates[1..] + [n];
      SumSnoc(updates[1..], n);
    }
  }

  /** A queue of safe updates stays safe when the one added leaves the final value non-negative. */
  lemma {:induction false} SafeSnoc(value: int, updates: seq<int>, n: int)
    requires Safe(value, updates) && value + Sum(updates) + n >= 0
    ensures Safe(value, updates + [n])
    decreases |updates|
  {
    if updates == [] {
      assert [n][1..] == [];
    } else {
      assert (updates + [n])[1..] == updates[1..] + [n];
      SafeSnoc(value + updates[0], updates[1..], n);
    }
  }

  /** Safe is what it says: no prefix of the updates leaves a negative value. */
  lemma {:induction false} SafeIffPrefixes(value: int, updates: seq<int>)
    ensures Safe(value, updates) <==> forall k :: 0 <= k <= |updates| ==> value + Sum(updates[..k]) >= 0
    decreases |updates|
  {
    if updates == [] {
      assert updates[..0] == [];
    } else {
      var next, rest := value + updates[0], updates[1..];
      SafeIffPrefixes(next, rest);
      assert updates[..0] == [];
      forall k | 0 <= k <= |rest| ensures value + Sum(updates[..k + 1]) == next + Sum(rest[..k]) {
        assert updates[..k + 1][1..] == rest[..k];
      }
      if Safe(value, updates) {
        forall k | 0 <= k <= |updates| ensures value + Sum(updates[..k]) >= 0 {
          if k > 0 {
            assert next + Sum(rest[..k - 1]) >= 0;
          }
        }
      }
      if forall k :: 0 <= k <= |updates| ==> value + Sum(updates[..k]) >= 0 {
        forall k | 0 <= k <= |rest| ensures next + Sum(rest[..k]) >= 0 {
          assert value + Sum(updates[..k + 1]) >= 0;
        }
        assert value + Sum(updates[..0]) >= 0;
      }
    }
  }

  /** The number of things there are, kept by applying queued updates one at a time. */
  class Count {
    var value: nat
    var queue: seq<int>

    constructor ()
      ensures value == 0 && queue == []
    {
      value, queue := 0, [];
    }

    method Add(n: nat)
      modifies this`value
      ensures value == old(value) + n
    {
      value := value + n;
    }

    /** Unsigned subtraction: the caller has to know that it does not underflow. */
    method Subtract(n: nat)
      requires n <= value
      modifies this`value
      ensures value == old(value) - n
    {
      value := value - n;
    }

    /** One turn of the listening loop. */
    method Listen()
      requires Safe(value, queue) && queue != []
      modifies this
      ensures Safe(value, queue) && value + Sum(queue) == old(value + Sum(queue))
      ensures value == old(value + queue[0]) && queue == old(queue)[1..]
    {
      var i := queue[0];
      queue := queue[1..];
      if i >= 0 {
        Add(i);
      } else {
        Subtract(-i);
      }
    }
  }

  /** What happens on the server: a connection starts or ends its run, or the listener gets to its next update. */
  datatype Event = Starts(id: nat) | Ends(id: nat) | Listens

  /** The count's value, its queued updates, and the connections that have sent their add and not yet their subtract. */
  datatype Tally = Tally(value: int, queue: seq<int>, active: set<nat>)

  const IDLE: Tally := Tally(0, [], {})

  ghost function After(t: Tally, capacity: nat, event: Event): Tally {
    match event
    case Starts(id) =>
      if id !in t.active && |t.queue| < capacity
      then Tally(t.value, t.queue + [1], t.active + {id}) else t
    case Ends(id) =>
      if id in t.active && |t.queue| < capacity
      then Tally(t.value, t.queue + [-1], t.active - {id}) else t
    case Listens =>
      if t.queue != [] then Tally(t.value + t.queue[0], t.queue[1..], t.active) else t
  }

  ghost function AfterAll(t: Tally, capacity: nat, events: seq<Event>): Tally {
    if events == [] then t
    else After(AfterAll(t, capacity, events[..|events| - 1]), capacity, events[|events| - 1])
  }

  /** No queued update can underflow the value, and value and queue together count the active connections. */
  ghost predicate Balanced(t: Tally) {
    Safe(t.value, t.queue) && t.value + Sum(t.queue) == |t.active|
  }

  lemma AfterBalanced(t: Tally, capacity: nat, event: Event)
    requires Balanced(t)
    ensures Balanced(After(t, capacity, event))
  {
    match event
    case Starts(id) =>
      SumSnoc(t.queue, 1);
      SafeSnoc(t.value, t.queue, 1);
    case Ends(id) =>
      SumSnoc(t.queue, -1);
      if id in t.active {
        SafeSnoc(t.value, t.queue, -1);
      }
    case Listens =>
  }

  /** Over any interleaving of connections and listener, from an idle server on: value plus queued updates are the
      connections that have added and not yet subtracted, no prefix of the queue underflows the value, and with an empty
      queue the value is that number. */
  lemma {:induction false} ConnectionLedger(capacity: nat, events: seq<Event>)
    ensures var t := AfterAll(IDLE, capacity, events);
            && Balanced(t) && (t.queue == [] ==> t.value == |t.active|)
  {
    if events != [] {
      ConnectionLedger(capacity, events[..|events| - 1]);
      AfterBalanced(AfterAll(IDLE, capacity, events[..|events| - 1]), capacity, events[|events| - 1]);
    }
  }

  // ---------------------------------------------------------------------------
  // What the events alone say

  /** The last start or end of id is a start. */
  ghost predicate LastIsStart(events: seq<Event>, id: nat) {
    if events == [] then false else
    match events[|events| - 1]
    case Starts(i) => i == id || LastIsStart(events[..|events| - 1], id)
    case Ends(i) => i != id && LastIsStart(events[..|events| - 1], id)
    case Listens => LastIsStart(events[..|events| - 1], id)
  }

  /** The channel has room at every event. */
  ghost predicate Roomy(capacity: nat, events: seq<Event>) {
    events != [] ==>
      && Roomy(capacity, events[..|events| - 1])
      && |AfterAll(IDLE, capacity, events[..|events| - 1]).queue| < capacity
  }

  lemma {:induction false} QueueBound(capacity: nat, events: seq<Event>)
    ensures |AfterAll(IDLE, capacity, events).queue| <= |events|
    ensures |AfterAll(IDLE, capacity, events).queue| <= capacity
  {
    if events != [] {
      QueueBound(capacity, events[..|events| - 1]);
    }
  }

  /** A channel as large as the run is long never fills up. */
  lemma {:induction false} ShortRunIsRoomy(capacity: nat, events: seq<Event>)
    requires |events| <= capacity
    ensures Roomy(capacity, events)
  {
    if events != [] {
      ShortRunIsRoomy(capacity, events[..|events| - 1]);
      QueueBound(capacity, events[..|events| - 1]);
    }
  }

  /** With room in the channel, the connections counted as active are those whose last event was a start. */
  lemma {:induction false} ActiveIffLastStart(capacity: nat, events: seq<Event>, id: nat)
    requires Roomy(capacity, events)
    ensures id in AfterAll(IDLE, capacity, events).active <==> LastIsStart(events, id)
  {
    if events != [] {
      ActiveIffLastStart(capacity, events[..|events| - 1], id);
    }
  }

  /** A start or end waits, and changes nothing, exactly when the channel is full or it is out of turn; otherwise
      its update goes to the end of the queue. */
  lemma WaitsIff(t: Tally, capacity: nat, id: nat)
    ensures var s := After(t, capacity, Starts(id));
            && (s == t <==> |t.queue| >= capacity || id in t.active)
            && (s != t ==> s.queue == t.queue + [1] && s.active == t.active + {id} && s.value == t.value)
    ensures var e := After(t, capacity, Ends(id));
            && (e == t <==> |t.queue| >= capacity || id !in t.active)
            && (e != t ==> e.queue == t.queue + [-1] && e.active == t.active - {id} && e.value == t.value)
  {
    assert |t.queue + [1]| > |t.queue| && |t.queue + [-1]| > |t.queue|;
  }

  ghost function Listening(n: nat): seq<Event> {
    if n == 0 then [] else Listening(n - 1) + [Listens]
  }

  /** Taking one more update off a queue. */
  lemma TakeOne(queue: seq<int>, k: nat)
    requires k < |queue|
    ensures Sum(queue[..k + 1]) == Sum(queue[..k]) + queue[k]
    ensures queue[k..] != [] && queue[k..][0] == queue[k] && queue[k..][1..] == queue[k + 1..]
  {
    assert queue[..k + 1] == queue[..k] + [queue[k]];
    SumSnoc(queue[..k], queue[k]);
  }

  lemma {:induction false} ListeningLength(n: nat)
    ensures |Listening(n)| == n
  {
    if n > 0 {
      ListeningLength(n - 1);
    }
  }

  lemma {:induction false} ListenedSome(t: Tally, capacity: nat, n: nat)
    ensures var k, r := if n < |t.queue| then n else |t.queue|, AfterAll(t, capacity, Listening(n));
            r.value == t.value + Sum(t.queue[..k]) && r.queue == t.queue[k..] && r.active == t.active
  {
    if n == 0 {
      assert t.queue[..0] == [] && t.queue[0..] == t.queue;
    } else {
      ListenedSome(t, capacity, n - 1);
      ListeningLength(n - 1);
      ListeningLength(n);
      assert Listening(n)[..n - 1] == Listening(n - 1) && Listening(n)[n - 1] == Listens;
      if n <= |t.queue| {
        TakeOne(t.queue, n - 1);
      } else {
        assert t.queue[|t.queue|..] == [];
      }
    }
  }

  /** Once the listener has caught up, the value is the number of connections whose last event was a start. */
  lemma CaughtUp(capacity: nat, events: seq<Event>, n: nat)
    requires Roomy(capacity, events) && n >= |AfterAll(IDLE, capacity, events).queue|
    ensures var t := AfterAll(AfterAll(IDLE, capacity, events), capacity, Listening(n));
            && t.queue == [] && t.value == |t.active|
            && forall id :: id in t.active <==> LastIsStart(events, id)
  {
    var t := AfterAll(IDLE, capacity, events);
    ConnectionLedger(capacity, events);
    ListenedSome(t, capacity, n);
    assert t.queue[..|t.queue|] == t.queue && t.queue[|t.queue|..] == [];
    forall id ensures id in t.active <==> LastIsStart(events, id) {
      ActiveIffLastStart(capacity, events, id);
    }
  }

  /** The connections of a server and the count they feed through a channel of the given capacity. */
  class Connections {
    const count: Count
    const capacity: nat
    var active: set<nat>  // connections that have sent their add and not yet their subtract

    ghost function State(): Tally
      reads this, count
    {
      Tally(count.value, count.queue, active)
    }

    ghost predicate Valid()
      reads this, count
    {
      Balanced(State())
    }

    constructor (capacity: nat)
      ensures Valid() && State() == IDLE && fresh(count)
    {
      this.capacity := capacity;
      count := new Count();
      active := {};
    }

    /** add(1) at the start of a connection's run; a full channel makes it wait. */
    method Start(id: nat)
      requires Valid()
      modifies this, count
      ensures Valid() && State() == After(old(State()), capacity, Starts(id))
    {
      AfterBalanced(State(), capacity, Starts(id));
      if id !in active && |count.queue| < capacity {
        count.queue, active := count.queue + [1], active + {id};
      }
    }

    /** subtract(1) at the end of a connection's run; a full channel makes it wait. */
    method End(id: nat)
      requires Valid()
      modifies this, count
      ensures Valid() && State() == After(old(State()), capacity, Ends(id))
    {
      AfterBalanced(State(), capacity, Ends(id));
      if id in active && |count.queue| < capacity {
        count.queue, active := count.queue + [-1], active - {id};
      }
    }

    /** Any interleaving, one event at a time. */
    method Run(events: seq<Event>)
      requires Valid()
      modifies this, count
      ensures Valid() && State() == AfterAll(old(State()), capacity, events)
    {
      for k := 0 to |events|
        invariant Valid() && State() == AfterAll(old(State()), capacity, events[..k])
      {
        assert events[..k + 1][..k] == events[..k];
        match events[k]
        case Starts(id) => Start(id);
        case Ends(id) => End(id);
        case Listens =>
          if count.queue != [] {
            count.Listen();
          }
      }
      assert events[..|events|] == events;
    }
  }

  /** What a throughput metric sees: an increment is sent, the listener applies one, or the interval ends. */
  datatype Tick = Sends(n: nat) | Applies | Reports

  /** The running value, its queued increments, and the values logged so far. */
  datatype Meter = Meter(value: nat, queue: seq<nat>, reported: seq<nat>)

  ghost function Ticked(m: Meter, tick: Tick): Meter {
    match tick
    case Sends(n) => m.(queue := m.queue + [n])
    case Applies => if m.queue != [] then m.(value := m.value + m.queue[0], queue := m.queue[1..]) else m
    case Reports => m.(value := 0, reported := m.reported + [m.value])
  }

  ghost function TickedAll(m: Meter, ticks: seq<Tick>): Meter {
    if ticks == [] then m else Ticked(TickedAll(m, ticks[..|ticks| - 1]), ticks[|ticks| - 1])
  }

  ghost function SentBy(ticks: seq<Tick>): nat {
    if ticks == [] then 0 else
    SentBy(ticks[..|ticks| - 1]) + match ticks[|ticks| - 1] case Sends(n) => n case _ => 0
  }

  ghost function Total(m: Meter): int {
    Sum(m.reported) + m.value + Sum(m.queue)
  }

  /** Nothing is counted twice and nothing is lost across reports: what was logged, what is counted and what is
      queued add up to what was sent. */
  lemma {:induction false} ThroughputConserved(m: Meter, ticks: seq<Tick>)
    ensures Total(TickedAll(m, ticks)) == Total(m) + SentBy(ticks)
  {
    if ticks != [] {
      var before := TickedAll(m, ticks[..|ticks| - 1]);
      ThroughputConserved(m, ticks[..|ticks| - 1]);
      match ticks[|ticks| - 1]
      case Sends(n) => SumSnoc(before.queue, n);
      case Applies =>
      case Reports => SumSnoc(before.reported, before.value);
    }
  }

  /** A report logs the value there is and starts from zero; queued increments are for the next one. */
  lemma ReportTakesAll(m: Meter, ticks: seq<Tick>)
    ensures var before, after := TickedAll(m, ticks), TickedAll(m, ticks + [Reports]);
            after == Meter(0, before.queue, before.reported + [before.value])
  {
    assert (ticks + [Reports])[..|ticks|] == ticks;
  }

  ghost function Applying(n: nat): seq<Tick> {
    if n == 0 then [] else Applying(n - 1) + [Applies]
  }

  lemma {:induction false} ApplyingLength(n: nat)
    ensures |Applying(n)| == n
  {
    if n > 0 {
      ApplyingLength(n - 1);
    }
  }

  lemma {:induction false} AppliedSome(m: Meter, n: nat)
    ensures var k, r := if n < |m.queue| then n else |m.queue|, TickedAll(m, Applying(n));
            r.value == m.value + Sum(m.queue[..k]) && r.queue == m.queue[k..] && r.reported == m.reported
  {
    if n == 0 {
      assert m.queue[..0] == [] && m.queue[0..] == m.queue;
    } else {
      AppliedSome(m, n - 1);
      ApplyingLength(n - 1);
      ApplyingLength(n);
      assert Applying(n)[..n - 1] == Applying(n - 1) && Applying(n)[n - 1] == Applies;
      if n <= |m.queue| {
        TakeOne(m.queue, n - 1);
      } else {
        assert m.queue[|m.queue|..] == [];
      }
    }
  }

  /** Once the listener has caught up and a report is made, the reports hold everything that was ever sent. */
  lemma EverythingReported(ticks: seq<Tick>, n: nat)
    requires n >= |TickedAll(Meter(0, [], []), ticks).queue|
    ensures var m := TickedAll(TickedAll(Meter(0, [], []), ticks), Applying(n) + [Reports]);
            m.value == 0 && m.queue == [] && Sum(m.reported) == SentBy(ticks)
  {
    var start := Meter(0, [], []);
    var m := TickedAll(start, ticks);
    var applied := TickedAll(m, Applying(n));
    ThroughputConserved(start, ticks);
    AppliedSome(m, n);
    assert m.queue[..|m.queue|] == m.queue && m.queue[|m.queue|..] == [];
    ReportTakesAll(m, Applying(n));
    SumSnoc(applied.reported, applied.value);
  }

  class Throughput {
    var value: nat
    var queue: seq<nat>
    var reported: seq<nat>  // the values logged so far

    ghost function State(): Meter
      reads this
    {
      Meter(value, queue, reported)
    }

    constructor ()
      ensures State() == Meter(0, [], [])
    {
      value, queue, reported := 0, [], [];
    }

    method Increment(n: nat)
      modifies this`value
      ensures value == old(value) + n
    {
      value := value + n;
    }

    /** Logging a value resets it. */
    method LogMetric()
      modifies this`value, this`reported
      ensures State() == Ticked(old(State()), Reports)
    {
      reported, value := reported + [value], 0;
    }

    /** Any interleaving of senders, listener and reports. */
    method Run(ticks: seq<Tick>)
      modifies this
      ensures State() == TickedAll(old(State()), ticks)
    {
      for k := 0 to |ticks|
        invariant State() == TickedAll(old(State()), ticks[..k])
      {
        assert ticks[..k + 1][..k] == ticks[..k];
        match ticks[k]
        case Sends(n) =>
          queue := queue + [n];
        case Applies =>
          if queue != [] {
            var n := queue[0];
            queue := queue[1..];
            Increment(n);
          }
        case Reports =>
          LogMetric();
      }
      assert ticks[..|ticks|] == ticks;
    }
  }
}
