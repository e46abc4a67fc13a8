/**
 The task that moves a client's queue onto the wire through a write buffer, for the three
 flush strategies. Each round of the select! loop is driven by a schedule: what arrives,
 whether the senders go away, which ready branch is taken, and what arrives while a write is awaited.
 */
module WriteLoops {

  type Bytes = seq<bv8>

  datatype FlushStrategy = Immediate | Periodic(intervalMs: nat) | Auto

  datatype Round = Round(arrivals: seq<Bytes>, closing: bool, takeTick: bool, meanwhile: seq<Bytes>)

  /** How the loop stands when the schedule ends: still running, left through else, or left on a write error. */
  datatype Exit = Running | Drained | Failed

  ghost function Joined(messages: seq<Bytes>): Bytes {
    if messages == [] then [] else Joined(messages[..|messages| - 1]) + messages[|messages| - 1]
  }

  lemma JoinedSnoc(messages: seq<Bytes>, m: Bytes)
    ensures Joined(messages + [m]) == Joined(messages) + m
  {
    assert (messages + [m])[..|messages|] == messages;
  }

  /** Nothing dequeued earlier is ever moved or lost by what is dequeued later. */
  lemma {:induction false} JoinedPrefix(messages: seq<Bytes>, more: seq<Bytes>)
    ensures Joined(messages) <= Joined(messages + more)
  {
    if more == [] {
      assert messages + more == messages;
    } else {
      var init, m := more[..|more| - 1], more[|more| - 1];
      JoinedPrefix(messages, init);
      JoinedSnoc(messages + init, m);
      assert messages + more == messages + init + [m];
    }
  }

  function Min(a: nat, b: nat): nat {
    if a <= b then a else b
  }

  /** The schedule never takes the tick branch while a message waits. */
  ghost predicate Tickless(strategy: FlushStrategy, schedule: seq<Round>) {
    strategy.Periodic? ==> forall i :: 0 <= i < |schedule| ==> !schedule[i].takeTick
  }

  /** The senders are gone by the end of the schedule. */
  ghost predicate ClosedBy(closed: bool, schedule: seq<Round>) {
    closed || exists i :: 0 <= i < |schedule| && schedule[i].closing
  }

  /** What the senders put into the queue in one round. */
  ghost function Offered(closed: bool, r: Round): seq<Bytes> {
    if closed then [] else r.arrivals + if r.closing then [] else r.meanwhile
  }

  lemma OfferedInTwo(before: seq<Bytes>, met: seq<Bytes>, after: seq<Bytes>, closed: bool, r: Round)
    requires met == before + if closed then [] else r.arrivals
    requires after == met + if closed || r.closing then [] else r.meanwhile
    ensures after == before + Offered(closed, r)
  {
  }

  lemma OfferedOnTop(before: seq<Bytes>, offers: seq<Bytes>, met: seq<Bytes>, more: seq<Bytes>, after: seq<Bytes>)
    requires met == before + offers && after == met + more
    ensures after == before + (offers + more)
  {
  }

  /** ... and over the schedule. */
  ghost function Offers(closed: bool, schedule: seq<Round>): seq<Bytes> {
    if schedule == [] then [] else
    var before, r := schedule[..|schedule| - 1], schedule[|schedule| - 1];
    Offers(closed, before) + Offered(ClosedBy(closed, before), r)
  }

  lemma OneMoreRound(closed: bool, schedule: seq<Round>, i: nat)
    requires i < |schedule|
    ensures ClosedBy(closed, schedule[..i + 1]) <==> ClosedBy(closed, schedule[..i]) || schedule[i].closing
    ensures Offers(closed, schedule[..i + 1]) ==
            Offers(closed, schedule[..i]) + Offered(ClosedBy(closed, schedule[..i]), schedule[i])
  {
    assert schedule[..i + 1][..i] == schedule[..i];
    if ClosedBy(closed, schedule[..i + 1]) && !closed {
      var k :| 0 <= k < i + 1 && schedule[..i + 1][k].closing;
      assert k < i ==> schedule[..i][k].closing;
    }
    if ClosedBy(closed, schedule[..i]) && !closed {
      var k :| 0 <= k < i && schedule[..i][k].closing;
      assert schedule[..i + 1][k].closing;
    }
    if schedule[i].closing {
      assert schedule[..i + 1][i].closing;
    }
  }

  lemma PrefixOfConcat(a: Bytes, b: Bytes, c: Bytes)
    requires a + b <= c
    ensures a <= c
  {
    assert a == (a + b)[..|a|] == c[..|a|];
  }

  /** A buffered writer: what the socket accepted is on the wire, the rest waits in the buffer. The script says how
      many bytes the socket takes at each write, none being its error; when it ends the socket takes everything. */
  class BufWriter {
    const capacity: nat
    const script: seq<nat>
    var next: nat
    var buffer: Bytes
    var wire: Bytes

    /** No write has met an error. */
    ghost predicate Ok()
      reads this
    {
      next <= |script| && 0 !in script[..next]
    }

    /** Some write has. */
    ghost predicate Broken()
      reads this
    {
      next <= |script| && 0 in script[..next] && 0 in script
    }

    constructor (capacity: nat, script: seq<nat>)
      ensures this.capacity == capacity && this.script == script
      ensures Ok() && next == 0 && buffer == [] && wire == []
    {
      this.capacity, this.script := capacity, script;
      next, buffer, wire := 0, [], [];
    }

    /** One write to the socket. */
    method Offer(data: Bytes) returns (n: nat)
      requires Ok() && data != []
      modifies this`next, this`wire
      ensures n == if old(next) < |script| then Min(script[old(next)], |data|) else |data|
      ensures next == Min(old(next) + 1, |script|) && wire == old(wire) + data[..n]
      ensures if n > 0 then Ok() else Broken()
    {
      n := |data|;
      if next < |script| {
        n := Min(script[next], |data|);
        assert script[..next + 1] == script[..next] + [script[next]];
        next := next + 1;
      }
      wire := wire + data[..n];
    }

    method Flush() returns (ok: bool)
      requires Ok()
      modifies this`next, this`wire, this`buffer
      ensures wire + buffer == old(wire + buffer) && old(wire) <= wire
      ensures if ok then Ok() else Broken()
      ensures ok ==> buffer == []
    {
      while buffer != []
        invariant Ok() && wire + buffer == old(wire + buffer) && old(wire) <= wire
        decreases |buffer|
      {
        assert forall n :: 0 <= n <= |buffer| ==> buffer == buffer[..n] + buffer[n..];
        var n := Offer(buffer);
        if n == 0 {
          return false;
        }
        buffer := buffer[n..];
      }
      return true;
    }

    /** Writes data behind everything written before: into the buffer if it fits, past it otherwise. */
    method WriteAll(data: Bytes) returns (ok: bool)
      requires Ok()
      modifies this`next, this`wire, this`buffer
      ensures old(wire) <= wire && old(wire + buffer) <= wire + buffer <= old(wire + buffer) + data
      ensures if ok then Ok() else Broken()
      ensures ok ==> wire + buffer == old(wire + buffer) + data
    {
      var rest := data;
      ghost var all := old(wire + buffer) + data;
      while rest != []
        invariant Ok() && old(wire) <= wire && old(wire + buffer) <= wire + buffer
        invariant wire + buffer + rest == all
        decreases |rest|
      {
        if |buffer| + |rest| > capacity {
          ok := Flush();
          if !ok {
            return;
          }
        }
        if |rest| >= capacity {
          assert buffer == [];
          assert forall n :: 0 <= n <= |rest| ==> rest == rest[..n] + rest[n..];
          var n := Offer(rest);
          if n == 0 {
            return false;
          }
          rest := rest[n..];
        } else {
          buffer, rest := buffer + rest, [];
        }
      }
      return true;
    }
  }

  class WriteLoop {
    const strategy: FlushStrategy
    const writer: BufWriter
    var queue: seq<Bytes>
    var closed: bool
    ghost var dequeued: seq<Bytes>
    ghost var accepted: seq<Bytes>

    /** At every loop head: the wire and the buffer together are the dequeued messages, in order, and the
        strategy leaves nothing behind that no later round would flush. */
    ghost predicate Valid()
      reads this, writer
    {
      && dequeued + queue == accepted
      && writer.wire + writer.buffer == Joined(dequeued)
      && (strategy.Immediate? ==> writer.buffer == [])
      && (strategy.Auto? && writer.buffer != [] ==> queue != [])
      && writer.Ok()
    }

    /** However a round ends: nothing is lost or reordered, the wire holds a prefix, and the exit tells the state. */
    ghost predicate After(exit: Exit)
      reads this, writer
    {
      && dequeued + queue == accepted && writer.wire <= Joined(dequeued)
      && (exit.Running? ==> Valid())
      && (if exit.Failed? then writer.Broken() else writer.Ok())
      && (exit.Drained? ==> !strategy.Periodic? && closed && queue == [] && writer.wire == Joined(accepted))
    }

    constructor (strategy: FlushStrategy, capacity: nat, script: seq<nat>)
      ensures Valid() && fresh(writer) && this.strategy == strategy && writer.script == script
      ensures queue == [] && !closed && accepted == []
    {
      this.strategy := strategy;
      writer := new BufWriter(capacity, script);
      queue, closed, dequeued, accepted := [], false, [], [];
    }

    /** Messages put into the queue by the senders, as long as there are any. */
    method Arrive(messages: seq<Bytes>)
      modifies this`queue, this`accepted
      ensures queue == old(queue) + if closed then [] else messages
      ensures accepted == old(accepted) + if closed then [] else messages
    {
      if !closed {
        queue, accepted := queue + messages, accepted + messages;
      }
    }

    /** Takes the next message off the queue and writes it; more may arrive while the write is awaited. */
    method WriteNext(meanwhile: seq<Bytes>) returns (ok: bool)
      requires Valid() && queue != []
      modifies this`queue, this`accepted, this`dequeued, writer
      ensures dequeued == old(dequeued) + [old(queue)[0]] && dequeued + queue == accepted
      ensures accepted == old(accepted) + if closed then [] else meanwhile
      ensures writer.wire <= Joined(dequeued)
      ensures ok ==> writer.wire + writer.buffer == Joined(dequeued)
      ensures if ok then writer.Ok() else writer.Broken()
    {
      var bytes := queue[0];
      JoinedSnoc(dequeued, bytes);
      queue, dequeued := queue[1..], dequeued + [bytes];
      ok := writer.WriteAll(bytes);
      PrefixOfConcat(writer.wire, writer.buffer, Joined(dequeued));
      Arrive(meanwhile);
    }

    /** The receiving branch: write one message, then flush as the strategy says. */
    method OnMessage(meanwhile: seq<Bytes>) returns (ok: bool)
      requires Valid() && queue != []
      modifies this`queue, this`accepted, this`dequeued, writer
      ensures dequeued == old(dequeued) + [old(queue)[0]] && dequeued + queue == accepted
      ensures accepted == old(accepted) + if closed then [] else meanwhile
      ensures writer.wire <= Joined(dequeued)
      ensures ok ==> Valid()
      ensures if ok then writer.Ok() else writer.Broken()
    {
      ok := WriteNext(meanwhile);
      if !ok {
        return;
      }
      match strategy
      case Immediate =>
        ok := writer.Flush();
      case Auto =>
        if queue == [] {
          ok := writer.Flush();
        }
      case Periodic(_) =>
    }

    /** The tick branch of the periodic strategy. */
    method OnTick(meanwhile: seq<Bytes>) returns (ok: bool)
      requires Valid() && strategy.Periodic?
      modifies this`queue, this`accepted, writer
      ensures accepted == old(accepted) + (if closed then [] else meanwhile) && dequeued + queue == accepted
      ensures writer.wire + writer.buffer == Joined(dequeued) && old(writer.wire) <= writer.wire
      ensures ok ==> Valid() && writer.wire == Joined(dequeued)
      ensures if ok then writer.Ok() else writer.Broken()
    {
      ok := writer.Flush();
      Arrive(meanwhile);
    }

    /** What reaches the queue while the loop awaits its next branch. */
    method Await(round: Round)
      requires Valid()
      modifies this`queue, this`accepted, this`closed
      ensures Valid() && old(queue) <= queue && closed == (old(closed) || round.closing)
      ensures accepted == old(accepted) + if old(closed) then [] else round.arrivals
    {
      Arrive(round.arrivals);
      closed := closed || round.closing;
    }

    /** One round of the select!: a message, a tick or, when neither branch can ever be ready again, else. */
    method Select(round: Round) returns (exit: Exit)
      requires Valid()
      modifies this`queue, this`accepted, this`dequeued, writer
      ensures After(exit) && accepted == old(accepted) + if closed then [] else round.meanwhile
      ensures dequeued == old(dequeued) +
                if old(queue) != [] && (!strategy.Periodic? || !round.takeTick) then [old(queue)[0]] else []
      ensures exit.Drained? <==> !strategy.Periodic? && closed && old(queue) == []
      ensures exit.Running? && strategy.Periodic? && round.takeTick ==> writer.wire == Joined(dequeued)
    {
      var ok := true;
      if queue != [] && (!strategy.Periodic? || !round.takeTick) {
        ok := OnMessage(round.meanwhile);
      } else if strategy.Periodic? {
        ok := OnTick(round.meanwhile);
      } else if closed {
        assert writer.buffer == [] && dequeued == accepted;
        return Drained;
      } else {
        Arrive(round.meanwhile);
      }
      exit := if ok then Running else Failed;
    }

    /** Waiting for a branch and taking it. */
    method OneRound(round: Round) returns (exit: Exit)
      requires Valid()
      modifies this`queue, this`accepted, this`dequeued, this`closed, writer
      ensures After(exit) && old(dequeued) <= dequeued && closed == (old(closed) || round.closing)
      ensures accepted == old(accepted) + Offered(old(closed), round)
      ensures exit.Running? && !strategy.Periodic? && closed ==> |dequeued| == old(|dequeued|) + 1
      ensures exit.Running? && old(queue) != [] && (!strategy.Periodic? || !round.takeTick) ==>
        |dequeued| == old(|dequeued|) + 1
    {
      ghost var before := accepted;
      Await(round);
      ghost var met := accepted;
      exit := Select(round);
      OfferedInTwo(before, met, accepted, old(closed), round);
    }

    /** The loop, over any schedule. What is accepted is what the senders offered. Without write errors every byte
        dequeued is on the wire or in the buffer, in order; with one, the wire still holds a prefix, and only then
        does the loop fail. It leaves through else only when the queue is closed and empty, then nothing is left
        unflushed, and the periodic strategy never does; the others do so before the rounds from the closing on
        outnumber the messages there can be. Without ticks every round takes a message while there are any. */
    method Run(schedule: seq<Round>) returns (exit: Exit, rounds: nat)
      requires Valid()
      modifies this`queue, this`accepted, this`dequeued, this`closed, writer
      ensures rounds <= |schedule| && (exit.Running? ==> rounds == |schedule|)
      ensures accepted == old(accepted) + Offers(old(closed), schedule[..rounds])
      ensures After(exit) && old(dequeued) <= dequeued
      ensures 0 !in writer.script ==> !exit.Failed?
      ensures exit.Running? && Tickless(strategy, schedule) ==>
        |dequeued| - old(|dequeued|) >= Min(|schedule|, old(|queue|))
      ensures !strategy.Periodic? && RoundsEnough(old(closed), schedule, old(|queue|)) ==> !exit.Running?
    {
      exit, rounds := Running, 0;
      ghost var closed0, accepted0, taken0, waiting := closed, accepted, |dequeued|, |queue|;
      StartOfRun(strategy, closed0, schedule, waiting);
      while rounds < |schedule|
        invariant 0 <= rounds <= |schedule| && exit.Running?
        invariant Valid() && old(dequeued) <= dequeued
        invariant closed == ClosedBy(closed0, schedule[..rounds])
        invariant accepted == accepted0 + Offers(closed0, schedule[..rounds])
        invariant Progress(strategy, closed0, schedule, rounds, |dequeued| - taken0, waiting)
      {
        ghost var taken, left, met := |dequeued| - taken0, |queue|, accepted;
        OneMoreRound(closed0, schedule, rounds);
        ghost var offers, more := Offers(closed0, schedule[..rounds]), Offered(closed, schedule[rounds]);
        exit := OneRound(schedule[rounds]);
        OfferedOnTop(accepted0, offers, met, more, accepted);
        rounds := rounds + 1;
        if !exit.Running? {
          return;
        }
        ProgressStep(strategy, closed0, schedule, rounds - 1, taken, |dequeued| - taken0, waiting, left);
      }
      assert schedule[..rounds] == schedule;
      EndOfRun(strategy, closed0, schedule, |dequeued| - taken0, waiting);
    }
  }

  /** From round k on the queue is closed. */
  ghost predicate ClosedAt(closed: bool, schedule: seq<Round>, k: nat) {
    k < |schedule| && ClosedBy(closed, schedule[..k + 1])
  }

  /** The rounds from the closing on outnumber the messages that were waiting or are offered. */
  ghost predicate RoundsEnough(closed: bool, schedule: seq<Round>, waiting: nat) {
    exists k: nat :: ClosedAt(closed, schedule, k) && |schedule| - k > waiting + |Offers(closed, schedule)|
  }

  /** How many messages the loop has taken after the given rounds, if it is still running. */
  ghost predicate Progress(strategy: FlushStrategy, closed: bool, schedule: seq<Round>, rounds: nat, taken: int, waiting: nat) {
    && (Tickless(strategy, schedule) ==> taken >= Min(rounds, waiting))
    && (!strategy.Periodic? ==> forall k: nat :: k < rounds && ClosedAt(closed, schedule, k) ==> taken >= rounds - k)
  }

  lemma StaysClosed(closed: bool, schedule: seq<Round>, k: nat, i: nat)
    requires k <= i < |schedule| && ClosedAt(closed, schedule, k)
    ensures ClosedAt(closed, schedule, i)
  {
    if !closed {
      var j :| 0 <= j < k + 1 && schedule[..k + 1][j].closing;
      assert schedule[..i + 1][j].closing;
    }
  }

  lemma ProgressStep(strategy: FlushStrategy, closed: bool, schedule: seq<Round>, rounds: nat, taken: nat, taken': nat,
                     waiting: nat, left: nat)
    requires rounds < |schedule| && Progress(strategy, closed, schedule, rounds, taken, waiting)
    requires taken + left >= waiting && taken <= taken'
    requires !strategy.Periodic? && ClosedAt(closed, schedule, rounds) ==> taken' == taken + 1
    requires left > 0 && (!strategy.Periodic? || !schedule[rounds].takeTick) ==> taken' == taken + 1
    ensures Progress(strategy, closed, schedule, rounds + 1, taken', waiting)
  {
    if !strategy.Periodic? {
      forall k: nat | k < rounds + 1 && ClosedAt(closed, schedule, k) ensures taken' >= rounds + 1 - k {
        StaysClosed(closed, schedule, k, rounds);
      }
    }
  }

  lemma StartOfRun(strategy: FlushStrategy, closed: bool, schedule: seq<Round>, waiting: nat)
    ensures ClosedBy(closed, schedule[..0]) == closed && Offers(closed, schedule[..0]) == []
    ensures Progress(strategy, closed, schedule, 0, 0, waiting)
  {
  }

  lemma EndOfRun(strategy: FlushStrategy, closed: bool, schedule: seq<Round>, taken: nat, waiting: nat)
    requires Progress(strategy, closed, schedule, |schedule|, taken, waiting)
    requires taken <= waiting + |Offers(closed, schedule)|
    ensures !strategy.Periodic? ==> !RoundsEnough(closed, schedule, waiting)
    ensures Tickless(strategy, schedule) ==> taken >= Min(|schedule|, waiting)
  {
  }
}
