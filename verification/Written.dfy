/**
 The tree exactly as the crate has it: what its counts add up to over any run, which
 patterns it then lists, and what one insertion or removal shows, hides or undoes.
 */
module Written {
  import opened Patterns
  import opened Counts
  import opened Operations

  /** Remove reports "Not found" and changes nothing unless the pattern is listed. */
  ghost function Exec(t: Trie, op: Op): Trie {
    match op
    case Insert(p) => Inserted(t, p)
    case Remove(p) => if Listed(t, p) then Removed(t, p) else t
  }

  ghost function Run(ops: seq<Op>): Trie {
    if ops == [] then EMPTY else Exec(Run(ops[..|ops| - 1]), ops[|ops| - 1])
  }

  lemma ExecWellFormed(t: Trie, op: Op)
    requires WellFormed(t)
    ensures WellFormed(Exec(t, op))
  {
    match op
    case Insert(p) => InsertedWellFormed(t, p);
    case Remove(p) => if Listed(t, p) { RemovedWellFormed(t, p); }
  }

  lemma {:induction false} RunWellFormed(ops: seq<Op>)
    ensures WellFormed(Run(ops))
  {
    if ops == [] {
      EmptyTree();
    } else {
      RunWellFormed(ops[..|ops| - 1]);
      ExecWellFormed(Run(ops[..|ops| - 1]), ops[|ops| - 1]);
    }
  }

  // ---------------------------------------------------------------------------
  // The count ledger

  /** What happened to a node since it was last created. */
  datatype Entry = Entry(inserts: nat, removes: nat, extensions: nat) {
    function Balance(): int { 2 * inserts - removes - extensions }
  }

  type Ledger = map<string, Entry>

  ghost function Known(ledger: Ledger, w: string): Entry {
    if w in ledger then ledger[w] else Entry(0, 0, 0)
  }

  /** One operation in the books of node w: an insertion ending at w, a removal ending at w,
      or an insertion ending one character below w. */
  ghost function Booked(e: Entry, t: Trie, op: Op, w: string): Entry
    requires w != []
  {
    match op
    case Insert(p) =>
      if p == w then e.(inserts := e.inserts + 1)
      else if p != [] && Parent(p) == w then e.(extensions := e.extensions + 1)
      else e
    case Remove(p) =>
      if p == w && Listed(t, p) then e.(removes := e.removes + 1) else e
  }

  /** The books after a run: one entry per live node below the root; a cut-off node loses its entry. */
  ghost function Books(ops: seq<Op>): Ledger {
    if ops == [] then map[] else
    var before, op := ops[..|ops| - 1], ops[|ops| - 1];
    map w | w in Run(ops) && w != [] :: Booked(Known(Books(before), w), Run(before), op, w)
  }

  ghost predicate Balanced(t: Trie, ledger: Ledger) {
    && (forall w :: w in ledger <==> w in t && w != [])
    && (forall w :: w in ledger ==> Slack(t, w) == ledger[w].Balance())
  }

  /** A node that was not there has no slack, as its empty books say. */
  lemma KnownBalance(t: Trie, ledger: Ledger, w: string)
    requires WellFormed(t) && Balanced(t, ledger) && w != []
    ensures Slack(t, w) == Known(ledger, w).Balance()
  {
    if w !in t {
      AbsentSlack(t, w);
    }
  }

  lemma BookedBalance(t: Trie, e: Entry, op: Op, w: string)
    requires WellFormed(t) && w in Exec(t, op) && w != [] && Slack(t, w) == e.Balance()
    ensures Slack(Exec(t, op), w) == Booked(e, t, op, w).Balance()
  {
    match op
    case Insert(p) =>
      InsertSlack(t, p, w);
    case Remove(p) =>
      if Listed(t, p) {
        RemovedGet(t, p, w);
        RemoveSlack(t, p, w);
      }
  }

  /** Over every run, each live node below the root is referenced, and its slack is twice the
      insertions ending there, less the removals, less the insertions ending one character further. */
  lemma {:induction false} CountLedger(ops: seq<Op>)
    ensures WellFormed(Run(ops)) && Balanced(Run(ops), Books(ops))
  {
    RunWellFormed(ops);
    if ops == [] {
      assert forall w :: w in EMPTY ==> w == [];
    } else {
      var before, op := ops[..|ops| - 1], ops[|ops| - 1];
      CountLedger(before);
      forall w | w in Books(ops) ensures Slack(Run(ops), w) == Books(ops)[w].Balance() {
        KnownBalance(Run(before), Books(before), w);
        BookedBalance(Run(before), Known(Books(before), w), op, w);
      }
    }
  }

  lemma {:induction false} BookedInsertHappened(ops: seq<Op>, w: string)
    requires w in Books(ops) && Books(ops)[w].inserts > 0
    ensures Insert(w) in ops
  {
    var before, op := ops[..|ops| - 1], ops[|ops| - 1];
    if op != Insert(w) {
      BookedInsertHappened(before, w);
    }
  }

  lemma {:induction false} RootCount(ops: seq<Op>)
    ensures [] in Run(ops) && Get(Run(ops), []) == multiset(ops)[Insert([])]
  {
    RunWellFormed(ops);
    if ops != [] {
      var before, op := ops[..|ops| - 1], ops[|ops| - 1];
      assert ops == before + [op];
      RootCount(before);
      var t := Run(before);
      RunWellFormed(before);
      match op
      case Insert(p) => InsertedGet(t, p, []);
      case Remove(p) => if Listed(t, p) { RemovedGet(t, p, []); }
    }
  }

  /** Over every run, a non-empty pattern is listed exactly when its node's books say so. */
  lemma ListedIffBalance(ops: seq<Op>, w: string)
    requires w != []
    ensures Listed(Run(ops), w) <==> w in Books(ops) && Books(ops)[w].Balance() > 0
  {
    CountLedger(ops);
    ListedIffSlack(Run(ops), w);
  }

  /** The books of the root: a copy of "" counts one; an insertion of one character takes two and a longer one takes
      one; a removal of a listed non-empty pattern gives one back. */
  ghost function RootBalance(ops: seq<Op>): int {
    if ops == [] then 0 else
    var before, op := ops[..|ops| - 1], ops[|ops| - 1];
    RootBalance(before) +
    match op
    case Insert(p) => if p == [] then 1 else if |p| == 1 then -2 else -1
    case Remove(p) => if p != [] && Listed(Run(before), p) then 1 else 0
  }

  /** Over every run "" is listed exactly when the books of the root are positive. */
  lemma {:induction false} RootListedIffBalance(ops: seq<Op>)
    ensures Slack(Run(ops), []) == RootBalance(ops)
    ensures Listed(Run(ops), []) <==> RootBalance(ops) > 0
  {
    RunWellFormed(ops);
    ListedIffSlack(Run(ops), []);
    if ops == [] {
      EmptyTree();
    } else {
      var before, op := ops[..|ops| - 1], ops[|ops| - 1];
      RootListedIffBalance(before);
      RunWellFormed(before);
      RootStepBalance(Run(before), op);
    }
  }

  lemma RootStepBalance(t: Trie, op: Op)
    requires WellFormed(t)
    ensures Slack(Exec(t, op), []) == Slack(t, []) +
            match op
            case Insert(p) => if p == [] then 1 else if |p| == 1 then -2 else -1
            case Remove(p) => if p != [] && Listed(t, p) then 1 else 0
  {
    match op
    case Insert(p) => InsertSlack(t, p, []);
    case Remove(p) => if Listed(t, p) { RemoveSlack(t, p, []); }
  }

  /** Every listed pattern, and hence some pattern behind every positive check, was inserted at some time. */
  lemma ListedWasInserted(ops: seq<Op>, w: string)
    ensures Listed(Run(ops), w) ==> Insert(w) in ops
  {
    CountLedger(ops);
    if Listed(Run(ops), w) {
      if w == [] {
        RootCount(ops);
        assert multiset(ops)[Insert([])] > 0;
      } else {
        ListedIffSlack(Run(ops), w);
        BookedInsertHappened(ops, w);
      }
    }
  }

  lemma CheckWasInserted(ops: seq<Op>, s: string)
    ensures Check(Run(ops), s) ==> exists p :: Insert(p) in ops && Matches(p, s)
  {
    if Check(Run(ops), s) {
      var p :| Listed(Run(ops), p) && Matches(p, s);
      ListedWasInserted(ops, p);
    }
  }

  // ---------------------------------------------------------------------------
  // Runs of insertions only: exactly what is visible

  ghost function InsertAll(ps: seq<string>): Trie {
    if ps == [] then EMPTY else Inserted(InsertAll(ps[..|ps| - 1]), ps[|ps| - 1])
  }

  /** How many of the patterns are longer than w and lead through it by exactly one more character. */
  ghost function Extensions(ps: seq<string>, w: string): nat {
    if ps == [] then 0 else
    var p := ps[|ps| - 1];
    Extensions(ps[..|ps| - 1], w) + if p != [] && Parent(p) == w then 1 else 0
  }

  ghost function WithPrefix(ps: seq<string>, w: string): nat {
    if ps == [] then 0 else
    WithPrefix(ps[..|ps| - 1], w) + if w <= ps[|ps| - 1] then 1 else 0
  }

  ghost function NonEmpty(ps: seq<string>): nat {
    if ps == [] then 0 else
    NonEmpty(ps[..|ps| - 1]) + if ps[|ps| - 1] != [] then 1 else 0
  }

  ghost function Inserts(ps: seq<string>): seq<Op> {
    if ps == [] then [] else Inserts(ps[..|ps| - 1]) + [Insert(ps[|ps| - 1])]
  }

  /** These are the runs with no removal. */
  lemma {:induction false} RunOfInserts(ps: seq<string>)
    ensures Run(Inserts(ps)) == InsertAll(ps)
  {
    if ps != [] {
      RunOfInserts(ps[..|ps| - 1]);
      RunSnoc(Inserts(ps[..|ps| - 1]), Insert(ps[|ps| - 1]));
    }
  }

  lemma {:induction false} InsertAllWellFormed(ps: seq<string>)
    ensures WellFormed(InsertAll(ps))
  {
    if ps == [] {
      EmptyTree();
    } else {
      InsertAllWellFormed(ps[..|ps| - 1]);
      InsertedWellFormed(InsertAll(ps[..|ps| - 1]), ps[|ps| - 1]);
    }
  }

  ghost predicate SomeStartsWith(ps: seq<string>, w: string) {
    exists i :: 0 <= i < |ps| && w <= ps[i]
  }

  lemma SomeStartsWithSnoc(ps: seq<string>, w: string)
    requires ps != []
    ensures SomeStartsWith(ps, w) <==> SomeStartsWith(ps[..|ps| - 1], w) || w <= ps[|ps| - 1]
  {
    var before := ps[..|ps| - 1];
    if SomeStartsWith(before, w) {
      var i :| 0 <= i < |before| && w <= before[i];
      assert ps[i] == before[i];
    }
    if SomeStartsWith(ps, w) {
      var i :| 0 <= i < |ps| && w <= ps[i];
      assert i < |before| ==> before[i] == ps[i];
    }
  }

  /** A node below the root exists exactly for the prefixes of inserted patterns. */
  lemma {:induction false} InsertOnlyNodes(ps: seq<string>, w: string)
    requires w != []
    ensures w in InsertAll(ps) <==> SomeStartsWith(ps, w)
  {
    if ps != [] {
      var n := |ps| - 1;
      InsertOnlyNodes(ps[..n], w);
      InsertedGet(InsertAll(ps[..n]), ps[n], w);
      SomeStartsWithSnoc(ps, w);
    }
  }

  /** Below the root a node counts the patterns through it once and the patterns ending at it twice;
      the root counts "" alone. */
  lemma {:induction false} InsertOnlyCounts(ps: seq<string>, w: string)
    ensures Get(InsertAll(ps), w) == multiset(ps)[w] + if w == [] then 0 else WithPrefix(ps, w)
  {
    if ps != [] {
      var before, q := ps[..|ps| - 1], ps[|ps| - 1];
      assert ps == before + [q];
      InsertOnlyCounts(before, w);
      InsertedGet(InsertAll(before), q, w);
    }
  }

  lemma {:induction false} InsertOnlySlack(ps: seq<string>, w: string)
    ensures w != [] ==> Slack(InsertAll(ps), w) == 2 * multiset(ps)[w] - Extensions(ps, w)
    ensures w == [] ==> Slack(InsertAll(ps), w) == multiset(ps)[w] - NonEmpty(ps) - Extensions(ps, [])
  {
    if ps == [] {
      EmptyTree();
    } else {
      var before, q := ps[..|ps| - 1], ps[|ps| - 1];
      assert ps == before + [q];
      InsertOnlySlack(before, w);
      InsertSlack(InsertAll(before), q, w);
    }
  }

  /** A pattern is visible among the inserted ones: more than half as many copies as one-character extensions;
      "" is visible when its copies outnumber the references to the root's children. */
  ghost predicate Visible(ps: seq<string>, w: string) {
    if w == [] then NonEmpty(ps) + Extensions(ps, []) < multiset(ps)[w]
    else Extensions(ps, w) < 2 * multiset(ps)[w]
  }

  /** Insert-only runs list exactly the visible patterns. */
  lemma ExactVisibility(ps: seq<string>, w: string)
    ensures Listed(InsertAll(ps), w) <==> Visible(ps, w)
  {
    InsertAllWellFormed(ps);
    InsertOnlySlack(ps, w);
    ListedIffSlack(InsertAll(ps), w);
  }

  /** The tree lists what was inserted, no more and no less, exactly when every inserted pattern is visible. */
  lemma ListsSupportIff(ps: seq<string>)
    ensures (forall w :: Listed(InsertAll(ps), w) <==> w in ps) <==> (forall p :: p in ps ==> Visible(ps, p))
  {
    forall w ensures Listed(InsertAll(ps), w) <==> Visible(ps, w) {
      ExactVisibility(ps, w);
    }
    forall w | Visible(ps, w) ensures w in ps {
      assert multiset(ps)[w] > 0;
    }
  }

  // ---------------------------------------------------------------------------
  // One insertion, one removal

  /** An insertion can only bring its own pattern into the list. */
  lemma InsertListsOnlyItself(t: Trie, p: string, w: string)
    requires WellFormed(t)
    ensures Listed(Inserted(t, p), w) && w != p ==> Listed(t, w)
    ensures Listed(Inserted(t, p), p) <==> GetsListed(t, p)
  {
    InsertedWellFormed(t, p);
    InsertSlack(t, p, w);
    InsertSlack(t, p, p);
    ListedIffSlack(t, w);
    ListedIffSlack(Inserted(t, p), w);
    ListedIffSlack(Inserted(t, p), p);
  }

  /** Neither the parent of p nor the root is one insertion away from losing its slack. */
  ghost predicate Harmless(t: Trie, p: string) {
    p == [] || (
      && (|p| > 1 ==> Slack(t, Parent(p)) != 1)
      && Slack(t, []) != 1
      && (|p| == 1 ==> Slack(t, []) != 2))
  }

  /** Inserting p hides no listed pattern exactly when it is harmless. */
  lemma InsertHidesNothingIff(t: Trie, p: string)
    requires WellFormed(t)
    ensures Harmless(t, p) <==> forall w :: Listed(t, w) ==> Listed(Inserted(t, p), w)
  {
    InsertedWellFormed(t, p);
    forall w ensures Listed(t, w) <==> Slack(t, w) > 0
             ensures Listed(Inserted(t, p), w) <==> Slack(t, w) + InsertDelta(p, w) > 0 {
      ListedIffSlack(t, w);
      ListedIffSlack(Inserted(t, p), w);
      InsertSlack(t, p, w);
    }
    if !Harmless(t, p) {
      var w := if |p| > 1 && Slack(t, Parent(p)) == 1 then Parent(p) else [];
      assert Listed(t, w) && !Listed(Inserted(t, p), w);
    }
  }

  /** p is going to be listed when it is inserted. */
  ghost predicate GetsListed(t: Trie, p: string) {
    Slack(t, p) + (if p == [] then 1 else 2) > 0
  }

  /** A subject starts to match when p is inserted exactly when p matches it and gets listed. */
  lemma InsertBringsIff(t: Trie, p: string, s: string)
    requires WellFormed(t) && !Check(t, s)
    ensures Check(Exec(t, Insert(p)), s) <==> Matches(p, s) && GetsListed(t, p)
  {
    InsertListsOnlyItself(t, p, p);
    if Check(Inserted(t, p), s) {
      var q :| Listed(Inserted(t, p), q) && Matches(q, s);
      InsertListsOnlyItself(t, p, q);
    }
  }

  /** w is the parent of p or the root, and has so little slack that inserting p takes it off the list. */
  ghost predicate OnBrink(t: Trie, p: string, w: string) {
    && p != []
    && (|| (w == [] && 0 < Slack(t, []) <= if |p| == 1 then 2 else 1)
        || (w != [] && w == Parent(p) && Slack(t, w) == 1))
  }

  lemma InsertUnlistsIff(t: Trie, p: string, w: string)
    requires WellFormed(t)
    ensures Listed(t, w) && !Listed(Inserted(t, p), w) <==> OnBrink(t, p, w)
  {
    InsertedWellFormed(t, p);
    ListedIffSlack(t, w);
    ListedIffSlack(Inserted(t, p), w);
    InsertSlack(t, p, w);
  }

  /** Every listed pattern that matches s is on the brink, and p, if it is going to be listed, does not match s. */
  ghost predicate TakesAway(t: Trie, p: string, s: string) {
    && Check(t, s)
    && (forall q :: Listed(t, q) && Matches(q, s) ==> OnBrink(t, p, q))
    && !(Matches(p, s) && GetsListed(t, p))
  }

  /** Exactly those subjects stop to match when p is inserted. */
  lemma InsertTakesAwayIff(t: Trie, p: string, s: string)
    requires WellFormed(t)
    ensures Check(t, s) && !Check(Inserted(t, p), s) <==> TakesAway(t, p, s)
  {
    InsertListsOnlyItself(t, p, p);
    forall q ensures Listed(Inserted(t, p), q) && q != p ==> Listed(t, q)
             ensures Listed(t, q) && !Listed(Inserted(t, p), q) <==> OnBrink(t, p, q) {
      InsertListsOnlyItself(t, p, q);
      InsertUnlistsIff(t, p, q);
    }
    if Check(Inserted(t, p), s) {
      var q :| Listed(Inserted(t, p), q) && Matches(q, s);
      assert !TakesAway(t, p, s);
    } else if Check(t, s) {
      assert TakesAway(t, p, s);
    }
  }

  /** A removal never brings a new non-empty pattern into the list, and keeps every listed pattern
      other than "" and its own unless that pattern's node is cut off. */
  lemma RemoveFrame(t: Trie, p: string, q: string)
    requires WellFormed(t) && Listed(t, p)
    ensures q != [] && Listed(Removed(t, p), q) ==> Listed(t, q)
    ensures q != [] && q != p && Listed(t, q) ==> (Listed(Removed(t, p), q) <==> !CutOff(t, p, q))
    ensures Listed(t, []) ==> Listed(Removed(t, p), [])
  {
    RemovedWellFormed(t, p);
    RemoveSlack(t, p, q);
    RemoveSlack(t, p, []);
    ListedIffSlack(t, q);
    ListedIffSlack(t, []);
    ListedIffSlack(Removed(t, p), q);
    ListedIffSlack(Removed(t, p), []);
  }

  /** The empty subject is matched by the empty pattern alone. */
  lemma OnlyEmptyMatchesEmpty(t: Trie)
    requires WellFormed(t)
    ensures Check(t, "") <==> Slack(t, "") > 0
  {
    ListedIffSlack(t, "");
    EmptyPatternMatches("");
    if Check(t, "") {
      var p :| Listed(t, p) && Matches(p, "");
      MatchLength(p, "");
    }
  }

  /** Removing p is about to bring "" back into the list. */
  ghost predicate Reveals(t: Trie, p: string) {
    p != [] && Listed(t, p) && Slack(t, []) == 0
  }

  /** A removal makes a subject match exactly when the subject is empty and the removal brings "" back. */
  lemma RemoveRevealsIff(t: Trie, p: string, s: string)
    requires WellFormed(t)
    ensures Check(Exec(t, Remove(p)), s) && !Check(t, s) <==> s == [] && Reveals(t, p)
  {
    if Listed(t, p) {
      RemovedWellFormed(t, p);
      if s == [] {
        OnlyEmptyMatchesEmpty(t);
        OnlyEmptyMatchesEmpty(Removed(t, p));
        RemoveSlack(t, p, []);
      } else if Check(Removed(t, p), s) {
        var q :| Listed(Removed(t, p), q) && Matches(q, s);
        EmptyPatternMatches(s);
        RemoveFrame(t, p, q);
      }
    }
  }

  /** So a removal makes something match that did not exactly when it brings "" back. */
  lemma RemoveMatchesMoreIff(t: Trie, p: string)
    requires WellFormed(t)
    ensures (exists s :: Check(Exec(t, Remove(p)), s) && !Check(t, s)) <==> Reveals(t, p)
  {
    if Reveals(t, p) {
      RemoveRevealsIff(t, p, []);
    }
    if s :| Check(Exec(t, Remove(p)), s) && !Check(t, s) {
      RemoveRevealsIff(t, p, s);
    }
  }

  /** Removing p takes q off the list: with its node, or as the last of its slack. */
  ghost predicate GoesWith(t: Trie, p: string, q: string) {
    CutOff(t, p, q) || (q == p && q != [] && Slack(t, q) == 1)
  }

  lemma RemoveUnlistsIff(t: Trie, p: string, q: string)
    requires WellFormed(t) && Listed(t, p) && Listed(t, q)
    ensures !Listed(Removed(t, p), q) <==> GoesWith(t, p, q)
  {
    RemovedWellFormed(t, p);
    RemoveSlack(t, p, q);
    ListedIffSlack(t, q);
    ListedIffSlack(Removed(t, p), q);
  }

  /** p is listed, and every listed pattern that matches s goes with it. */
  ghost predicate RemovalEnds(t: Trie, p: string, s: string) {
    Listed(t, p) && Check(t, s) && forall q :: Listed(t, q) && Matches(q, s) ==> GoesWith(t, p, q)
  }

  /** Exactly those subjects stop to match when p is removed. */
  lemma RemoveEndsIff(t: Trie, p: string, s: string)
    requires WellFormed(t)
    ensures Check(t, s) && !Check(Exec(t, Remove(p)), s) <==> RemovalEnds(t, p, s)
  {
    if Listed(t, p) && Check(t, s) {
      forall q | Listed(t, q) ensures !Listed(Removed(t, p), q) <==> GoesWith(t, p, q) {
        RemoveUnlistsIff(t, p, q);
      }
      if RemovalEnds(t, p, s) && Check(Removed(t, p), s) {
        var q :| Listed(Removed(t, p), q) && Matches(q, s);
        RemoveFrame(t, p, q);
        EmptyPatternMatches(s);
        OnlyEmptyMatchesEmpty(t);
        ListedIffSlack(t, []);
      }
    }
  }

  lemma CutIsFirstNewNode(t: Trie, p: string)
    requires WellFormed(t)
    ensures var t' := Inserted(t, p);
            FirstSingle(t', p, 1) <= |p| <==> |p| >= 2 && Parent(p) !in t
  {
    var t' := Inserted(t, p);
    var k := FirstSingle(t', p, 1);
    InsertedGet(t, p, p);
    if k <= |p| {
      InsertedGet(t, p, p[..k]);
      assert p[..k] !in t;
      if Parent(p) in t {
        PrefixPresent(t, Parent(p), p[..k]);
      }
    }
    if |p| >= 2 && Parent(p) !in t {
      var j := |p| - 1;
      assert p[..j] == Parent(p);
      InsertedGet(t, p, p[..j]);
    }
  }

  /** Removing the pattern just inserted takes it off the list exactly when its last token got a new parent
      or its slack was already negative; otherwise one removal does not undo one insertion. */
  lemma RemoveUndoesInsertIff(t: Trie, p: string)
    requires WellFormed(t)
    ensures !Listed(Exec(Exec(t, Insert(p)), Remove(p)), p) <==>
            Slack(t, p) < 0 || (|p| >= 2 && Parent(p) !in t)
  {
    var t1 := Inserted(t, p);
    InsertedWellFormed(t, p);
    InsertListsOnlyItself(t, p, p);
    CutIsFirstNewNode(t, p);
    if |p| >= 2 && Parent(p) !in t {
      AbsentSlack(t, p);
    }
    if Listed(t1, p) {
      RemovedWellFormed(t1, p);
      RemoveSlack(t1, p, p);
      InsertSlack(t, p, p);
      ListedIffSlack(Removed(t1, p), p);
    }
  }

  // ---------------------------------------------------------------------------
  // Witnesses

  /** Two extensions hide a stored pattern. */
  lemma ExtensionsHidePattern()
    ensures !Listed(InsertAll(["a", "ab", "ac"]), "a")
  {
    var ps := ["a", "ab", "ac"];
    ExactVisibility(ps, "a");
    ExtensionsSnoc(["a", "ab"], "ac", "a");
    ExtensionsSnoc(["a"], "ab", "a");
    assert ps == ["a", "ab"] + ["ac"] && ["a", "ab"] == ["a"] + ["ab"];
    assert Parent("ab") == "a" && Parent("ac") == "a";
    assert multiset(ps)["a"] == 1;
  }

  /** ... and with it the topic that it alone matched. */
  lemma ExtensionsHideTopic()
    ensures var t := Inserted(Inserted(Inserted(EMPTY, "a"), "ab"), "ac");
            !Check(t, "a") && Check(Inserted(EMPTY, "a"), "a")
  {
    var t1 := Inserted(EMPTY, "a");
    var t2 := Inserted(t1, "ab");
    var t3 := Inserted(t2, "ac");
    ThreeInserted();
    forall p | Listed(t3, p) ensures !Matches(p, "a") {
      InsertListsOnlyItself(t2, "ac", p);
      InsertListsOnlyItself(t1, "ab", p);
      InsertListsOnlyItself(EMPTY, "a", p);
      ListedIffSlack(t3, p);
      assert p == "ab" || p == "ac";
      if Matches(p, "a") {
        MatchLength(p, "a");
      }
    }
    MatchesItself('a');
    ListedIffSlack(t1, "a");
    assert Listed(t1, "a") && Matches("a", "a");
  }

  lemma ThreeInserted()
    ensures var t1 := Inserted(EMPTY, "a");
            var t2 := Inserted(t1, "ab");
            var t3 := Inserted(t2, "ac");
            && WellFormed(EMPTY) && WellFormed(t1) && WellFormed(t2) && WellFormed(t3)
            && Slack(t1, "a") == 2 && Slack(t3, "a") == 0 && forall p :: !Listed(EMPTY, p)
  {
    var t1 := Inserted(EMPTY, "a");
    var t2 := Inserted(t1, "ab");
    EmptyTree();
    InsertedWellFormed(EMPTY, "a");
    InsertedWellFormed(t1, "ab");
    InsertedWellFormed(t2, "ac");
    assert Parent("ab") == "a" && Parent("ac") == "a";
    InsertSlack(EMPTY, "a", "a");
    InsertSlack(t1, "ab", "a");
    InsertSlack(t2, "ac", "a");
    forall p ensures !Listed(EMPTY, p) {
      ListedIffSlack(EMPTY, p);
    }
  }

  lemma MatchesItself(c: char)
    ensures Matches([c], [c])
  {
    MatchesUnfold([c], [c]);
    EmptyPatternMatches([]);
    assert [c][1..] == [];
  }

  lemma ExtensionsSnoc(ps: seq<string>, p: string, w: string)
    ensures Extensions(ps + [p], w) == Extensions(ps, w) + if p != [] && Parent(p) == w then 1 else 0
  {
    assert (ps + [p])[..|ps|] == ps;
  }

  /** A one-character pattern inserted once survives its removal. */
  lemma PatternSurvivesRemove()
    ensures Listed(Run([Insert("a"), Remove("a")]), "a")
  {
    var ops := [Insert("a"), Remove("a")];
    assert ops[..1] == [Insert("a")] && ops[..1][..0] == [];
    EmptyTree();
    RemoveUndoesInsertIff(EMPTY, "a");
  }

  /** With "ab" and "ac" stored, removing "ab" twice takes "ac" along. */
  lemma SecondRemoveTakesSibling()
    ensures Listed(Run([Insert("ab"), Insert("ac")]), "ac")
    ensures !Listed(Run([Insert("ab"), Insert("ac"), Remove("ab"), Remove("ab")]), "ac")
  {
    var stored := [Insert("ab"), Insert("ac")];
    RunTwo([], Insert("ab"), Insert("ac"));
    RunTwo(stored, Remove("ab"), Remove("ab"));
    assert [] + stored == stored;
    assert stored + [Remove("ab"), Remove("ab")] == [Insert("ab"), Insert("ac"), Remove("ab"), Remove("ab")];
    SiblingsStored();
    SiblingCutOff(Run(stored));
  }

  lemma SiblingsStored()
    ensures var t := Inserted(Inserted(EMPTY, "ab"), "ac");
            && WellFormed(t) && Slack(t, "ab") == 2 && Slack(t, "ac") == 2
            && Get(t, "a") == 2 && Get(t, "ab") == 2
  {
    var t1 := Inserted(EMPTY, "ab");
    EmptyTree();
    InsertedWellFormed(EMPTY, "ab");
    InsertedWellFormed(t1, "ac");
    assert Parent("ab") == "a" && Parent("ac") == "a";
    forall w | w in {"ab", "ac"} ensures Slack(Inserted(t1, "ac"), w) == 2 {
      InsertSlack(EMPTY, "ab", w);
      InsertSlack(t1, "ac", w);
    }
    forall w | w in {"a", "ab"} ensures Get(Inserted(t1, "ac"), w) == 2 {
      InsertedGet(EMPTY, "ab", w);
      InsertedGet(t1, "ac", w);
    }
  }

  lemma SiblingCutOff(t: Trie)
    requires WellFormed(t) && Slack(t, "ab") == 2 && Slack(t, "ac") == 2 && Get(t, "a") == 2 && Get(t, "ab") == 2
    ensures Listed(t, "ac") && !Listed(Exec(Exec(t, Remove("ab")), Remove("ab")), "ac")
  {
    var t' := Exec(t, Remove("ab"));
    ListedIffSlack(t, "ab");
    ListedIffSlack(t, "ac");
    assert "ab"[..1] == "a" && "ab"[..2] == "ab";
    assert FirstSingle(t, "ab", 1) == 3;
    RemovedWellFormed(t, "ab");
    RemoveSlack(t, "ab", "ab");
    ListedIffSlack(t', "ab");
    RemovedGet(t, "ab", "a");
    assert FirstSingle(t', "ab", 1) == 1;
    RemovedGet(t', "ab", "ac");
  }

  lemma RunSnoc(ops: seq<Op>, op: Op)
    ensures Run(ops + [op]) == Exec(Run(ops), op)
  {
    assert (ops + [op])[..|ops|] == ops;
  }

  lemma RunTwo(ops: seq<Op>, op: Op, op': Op)
    ensures Run(ops + [op, op']) == Exec(Exec(Run(ops), op), op')
  {
    var one, two := ops + [op], ops + [op, op'];
    assert two[..|ops| + 1] == one && one[..|ops|] == ops;
    assert Run(two) == Exec(Run(one), op');
  }

  /** As written, removing "a" can bring "" back into the list, and so make the empty topic match again
      without any subscription to it. */
  lemma EmptyTopicReturns()
    ensures var t := Run([Insert(""), Insert("a"), Remove("a")]);
            !Check(t, "") && Check(Exec(t, Remove("a")), "")
  {
    var t1 := Inserted(EMPTY, "");
    var t2 := Inserted(t1, "a");
    RunSnoc([], Insert(""));
    RunSnoc([Insert("")], Insert("a"));
    RunSnoc([Insert(""), Insert("a")], Remove("a"));
    assert [] + [Insert("")] == [Insert("")];
    assert [Insert("")] + [Insert("a")] == [Insert(""), Insert("a")];
    assert [Insert(""), Insert("a")] + [Remove("a")] == [Insert(""), Insert("a"), Remove("a")];
    RootHiddenByOne();
    RootAfterTwoRemoves(t2);
  }

  lemma RootHiddenByOne()
    ensures var t := Inserted(Inserted(EMPTY, ""), "a");
            WellFormed(t) && Slack(t, "") == -1 && Slack(t, "a") == 2 && Get(t, "a") == 2
  {
    var t1 := Inserted(EMPTY, "");
    EmptyTree();
    InsertedWellFormed(EMPTY, "");
    InsertedWellFormed(t1, "a");
    InsertSlack(EMPTY, "", "");
    InsertSlack(t1, "a", "");
    InsertSlack(EMPTY, "", "a");
    InsertSlack(t1, "a", "a");
    InsertedGet(EMPTY, "", "a");
    InsertedGet(t1, "a", "a");
  }

  lemma RootAfterTwoRemoves(t: Trie)
    requires WellFormed(t) && Slack(t, "") == -1 && Slack(t, "a") == 2 && Get(t, "a") == 2
    ensures var t3 := Exec(t, Remove("a")); !Check(t3, "") && Check(Exec(t3, Remove("a")), "")
  {
    var t3 := Exec(t, Remove("a"));
    ListedIffSlack(t, "a");
    assert "a"[..1] == "a";
    assert FirstSingle(t, "a", 1) == 2;
    RemovedWellFormed(t, "a");
    RemoveSlack(t, "a", "");
    RemoveSlack(t, "a", "a");
    ListedIffSlack(t3, "a");
    ListedIffSlack(t3, "");
    OnlyEmptyMatchesEmpty(t3);
    var t4 := Removed(t3, "a");
    RemovedWellFormed(t3, "a");
    RemoveSlack(t3, "a", "");
    ListedIffSlack(t4, "");
    EmptyPatternMatches("");
    assert Listed(t4, "") && Matches("", "");
  }
}
