/**
 The tree with the counts its documentation describes: "Count of patterns which include
 this node". The walks are the crate's own; the root is counted as well, and an insertion
 does not count its last node twice. Over every run this tree is a multiset of patterns.
 */
module CountedTrees {
  import opened Options
  import opened Patterns
  import opened Counts
  import opened Operations
  import opened Listing
  import opened GlobTrees

  /** How many of the stored patterns include node w. */
  ghost function Through(stored: multiset<string>, w: string): nat {
    if stored == multiset{} then 0 else
    var p :| p in stored;
    Through(stored - multiset{p}, w) + if w <= p then 1 else 0
  }

  lemma ThroughPick(stored: multiset<string>, w: string) returns (q: string)
    requires stored != multiset{}
    ensures q in stored && Through(stored, w) == Through(stored - multiset{q}, w) + if w <= q then 1 else 0
  {
    q :| q in stored && Through(stored, w) == Through(stored - multiset{q}, w) + if w <= q then 1 else 0;
  }

  lemma AddBeforeTake(stored: multiset<string>, p: string, q: string)
    ensures stored + multiset{p} - multiset{p} == stored
    ensures q in stored ==> stored + multiset{p} - multiset{q} == stored - multiset{q} + multiset{p}
    ensures q in stored ==> stored - multiset{q} + multiset{q} == stored
  {
  }

  lemma {:induction false} ThroughAdd(stored: multiset<string>, p: string, w: string)
    ensures Through(stored + multiset{p}, w) == Through(stored, w) + if w <= p then 1 else 0
    decreases |stored|
  {
    var q := ThroughPick(stored + multiset{p}, w);
    AddBeforeTake(stored, p, q);
    if q != p {
      ThroughAdd(stored - multiset{q}, p, w);
      ThroughAdd(stored - multiset{q}, q, w);
    }
  }

  lemma ThroughStored(stored: multiset<string>, p: string, w: string)
    requires p in stored && w <= p
    ensures Through(stored, w) == Through(stored - multiset{p}, w) + 1
  {
    assert stored - multiset{p} + multiset{p} == stored;
    ThroughAdd(stored - multiset{p}, p, w);
  }

  lemma {:induction false} ThroughNone(stored: multiset<string>, w: string)
    requires forall p :: p in stored ==> !(w <= p)
    ensures Through(stored, w) == 0
    decreases |stored|
  {
    if stored != multiset{} {
      var p :| p in stored && Through(stored, w) == Through(stored - multiset{p}, w) + if w <= p then 1 else 0;
      ThroughNone(stored - multiset{p}, w);
    }
  }

  /** Every node counts the stored patterns through it, and has as much slack as there are copies of its own pattern. */
  ghost predicate Refines(t: Trie, stored: multiset<string>) {
    && WellFormed(t)
    && (forall w :: Slack(t, w) == stored[w])
    && (forall w :: w in t ==> t[w] == Through(stored, w))
  }

  lemma StoredIsNode(t: Trie, stored: multiset<string>, p: string, w: string)
    requires Refines(t, stored) && p in stored && w <= p
    ensures p in t && w in t
  {
    assert Slack(t, p) > 0;
    ListedIffSlack(t, p);
    PrefixPresent(t, p, w);
  }

  lemma ListedIffStored(t: Trie, stored: multiset<string>, p: string)
    requires Refines(t, stored)
    ensures Listed(t, p) <==> p in stored
  {
    ListedIffSlack(t, p);
    assert Slack(t, p) == stored[p];
  }

  /** Such a tree lists the support of the multiset and matches what some stored pattern matches. */
  lemma RefinedBehaviour(t: Trie, stored: multiset<string>)
    requires Refines(t, stored)
    ensures forall p :: Listed(t, p) <==> p in stored
    ensures forall s :: Check(t, s) <==> exists p :: p in stored && Matches(p, s)
  {
    forall p ensures Listed(t, p) <==> p in stored {
      ListedIffStored(t, stored, p);
    }
    forall s ensures Check(t, s) <==> exists p :: p in stored && Matches(p, s) {
      if Check(t, s) {
        var p :| Listed(t, p) && Matches(p, s);
        assert p in stored;
      }
      if p :| p in stored && Matches(p, s) {
        assert Listed(t, p);
      }
    }
  }

  lemma CountedInsertedGet(t: Trie, p: string, w: string)
    requires WellFormed(t)
    ensures Get(CountedInserted(t, p), w) == Get(t, w) + if w <= p then 1 else 0
    ensures w in CountedInserted(t, p) <==> w in t || w <= p
  {
    WalkedGet(Bumped(t, []), p, |p|, w);
  }

  lemma InsertRefines(t: Trie, stored: multiset<string>, p: string)
    requires Refines(t, stored)
    ensures Refines(CountedInserted(t, p), stored + multiset{p})
  {
    var t', more := CountedInserted(t, p), stored + multiset{p};
    WalkedWellFormed(Bumped(t, []), p);
    forall w ensures Slack(t', w) == more[w] {
      CountedInsertSlack(t, p, w);
    }
    forall w | w in t' ensures t'[w] == Through(more, w) {
      CountedInsertedGet(t, p, w);
      ThroughAdd(stored, p, w);
      if w !in t {
        forall q | q in stored ensures !(w <= q) {
          if w <= q {
            StoredIsNode(t, stored, q, w);
          }
        }
        ThroughNone(stored, w);
      }
    }
  }

  /** Everything cut off with a node of count one is the removed pattern alone. */
  lemma CutOffIsUnstored(t: Trie, stored: multiset<string>, p: string, w: string)
    requires Refines(t, stored) && p in stored && CutOff(t, p, w)
    ensures (stored - multiset{p})[w] == 0
  {
    var rest, v := stored - multiset{p}, p[..FirstSingle(t, p, 1)];
    StoredIsNode(t, stored, p, v);
    ThroughStored(stored, p, v);
    if w in rest {
      ThroughStored(rest, w, v);
    }
  }

  lemma RootIsCounted(t: Trie, stored: multiset<string>, p: string)
    requires Refines(t, stored) && p in stored
    ensures [] in t && t[[]] >= 1 && p in t
  {
    StoredIsNode(t, stored, p, []);
    ThroughStored(stored, p, []);
  }

  lemma CountedRemovedGet(t: Trie, p: string, w: string)
    requires WellFormed(t) && t[[]] >= 1 && p in t
    ensures w in CountedRemoved(t, p) <==> w in t && !CutOff(t, p, w)
    ensures w in CountedRemoved(t, p) ==> CountedRemoved(t, p)[w] == t[w] - if w <= p then 1 else 0
    ensures WellFormed(CountedRemoved(t, p))
  {
    var r := Uncounted(t);
    SameFirstSingle(t, r, p, 1);
    RemovedGet(r, p, w);
    RemovedWellFormed(r, p);
  }

  /** Removing takes away exactly one copy, even when a whole subtree goes. */
  lemma RemoveRefines(t: Trie, stored: multiset<string>, p: string)
    requires Refines(t, stored) && p in stored
    ensures t[[]] >= 1 && Refines(CountedRemoved(t, p), stored - multiset{p})
  {
    RootIsCounted(t, stored, p);
    var t', rest := CountedRemoved(t, p), stored - multiset{p};
    CountedRemovedGet(t, p, []);
    forall w ensures Slack(t', w) == rest[w] {
      CountedRemoveSlack(t, p, w);
      if CutOff(t, p, w) {
        CutOffIsUnstored(t, stored, p, w);
      }
    }
    forall w | w in t' ensures t'[w] == Through(rest, w) {
      CountedRemovedGet(t, p, w);
      assert rest + multiset{p} == stored;
      ThroughAdd(rest, p, w);
    }
  }

  lemma EmptyRefines()
    ensures Refines(EMPTY, multiset{})
  {
    EmptyTree();
    ThroughNone(multiset{}, []);
  }

  // ---------------------------------------------------------------------------
  // Runs

  ghost function Stored(ops: seq<Op>): multiset<string> {
    if ops == [] then multiset{} else
    var before := Stored(ops[..|ops| - 1]);
    match ops[|ops| - 1]
    case Insert(p) => before + multiset{p}
    case Remove(p) => before - multiset{p}
  }

  ghost function CountedRun(ops: seq<Op>): Trie {
    if ops == [] then EMPTY else
    var t := CountedRun(ops[..|ops| - 1]);
    match ops[|ops| - 1]
    case Insert(p) => CountedInserted(t, p)
    case Remove(p) => if Listed(t, p) && Get(t, []) >= 1 then CountedRemoved(t, p) else t
  }

  /** Over every run of insertions and removals the tree is the multiset of what is stored. */
  lemma {:induction false} FullRefinement(ops: seq<Op>)
    ensures Refines(CountedRun(ops), Stored(ops))
  {
    if ops == [] {
      EmptyRefines();
    } else {
      var before := ops[..|ops| - 1];
      FullRefinement(before);
      var t, stored := CountedRun(before), Stored(before);
      RefinedBehaviour(t, stored);
      match ops[|ops| - 1]
      case Insert(p) =>
        InsertRefines(t, stored, p);
      case Remove(p) =>
        if p in stored {
          RemoveRefines(t, stored, p);
        } else {
          assert stored - multiset{p} == stored;
        }
    }
  }

  /** Insertions of p less removals of p. */
  ghost function Surplus(ops: seq<Op>, p: string): int {
    if ops == [] then 0 else
    Surplus(ops[..|ops| - 1], p) +
    match ops[|ops| - 1]
    case Insert(q) => if q == p then 1 else 0
    case Remove(q) => if q == p then -1 else 0
  }

  /** k copies are the greatest surplus of p that any final stretch of the run has. */
  ghost predicate GreatestSurplus(ops: seq<Op>, p: string, k: nat) {
    && (forall i :: 0 <= i <= |ops| ==> Surplus(ops[i..], p) <= k)
    && (exists i :: 0 <= i <= |ops| && Surplus(ops[i..], p) == k)
  }

  lemma SurplusSnoc(ops: seq<Op>, p: string, i: nat)
    requires i < |ops|
    ensures Surplus(ops[i..], p) == Surplus(ops[..|ops| - 1][i..], p) + Surplus(ops[|ops| - 1..], p)
  {
    assert ops[i..][..|ops[i..]| - 1] == ops[..|ops| - 1][i..];
    assert ops[|ops| - 1..][..0] == [];
  }

  /** What is stored is what the operations alone say: removals of a pattern that is not there take nothing away. */
  lemma {:induction false} StoredIsGreatestSurplus(ops: seq<Op>, p: string)
    ensures GreatestSurplus(ops, p, Stored(ops)[p])
  {
    var n := |ops|;
    assert ops[n..] == [];
    if n > 0 {
      var before := ops[..n - 1];
      StoredIsGreatestSurplus(before, p);
      forall i | 0 <= i < n
        ensures Surplus(ops[i..], p) == Surplus(before[i..], p) + Surplus(ops[n - 1..], p) {
        SurplusSnoc(ops, p, i);
      }
      LastSurplus(ops, p);
      var k := Stored(before)[p];
      var i :| 0 <= i <= n - 1 && Surplus(before[i..], p) == k;
      if k + Surplus(ops[n - 1..], p) >= 0 {
        assert Surplus(ops[i..], p) == Stored(ops)[p];
      } else {
        assert Surplus(ops[n..], p) == Stored(ops)[p];
      }
    }
  }

  lemma LastSurplus(ops: seq<Op>, p: string)
    requires ops != []
    ensures var s := Stored(ops[..|ops| - 1])[p] + Surplus(ops[|ops| - 1..], p);
            -1 <= s && Stored(ops)[p] == if s < 0 then 0 else s
  {
    assert ops[|ops| - 1..][..0] == [] && ops[|ops| - 1..][0] == ops[|ops| - 1];
  }

  /** Over every run a pattern is listed exactly when some final stretch inserts it more often than it removes it. */
  lemma ListedIffSurplus(ops: seq<Op>, p: string)
    ensures Listed(CountedRun(ops), p) <==> exists i :: 0 <= i <= |ops| && Surplus(ops[i..], p) > 0
  {
    FullRefinement(ops);
    ListedIffStored(CountedRun(ops), Stored(ops), p);
    StoredIsGreatestSurplus(ops, p);
  }

  // ---------------------------------------------------------------------------
  // The same walks on the heap

  /** One reference more to the root, then the cursor walk. */
  method PutIn(tree: GlobTree, pattern: string)
    requires tree.Valid()
    modifies tree, tree.nodes.Values
    ensures tree.Valid() && tree.Value() == CountedInserted(old(tree.Value()), pattern)
    ensures fresh(tree.nodes.Values - old(tree.nodes.Values))
  {
    tree.Bump([], tree.root);
    var _ := tree.WalkIn(pattern);
  }

  method LowerRoot(tree: GlobTree)
    requires tree.Valid() && Get(tree.Value(), []) >= 1
    modifies tree.nodes.Values
    ensures tree.Valid() && tree.nodes == old(tree.nodes) && tree.Value() == Uncounted(old(tree.Value()))
  {
    tree.Unref([], tree.root);
  }

  /** One reference less to the root, then the cursor walk. */
  method TakeOut(tree: GlobTree, pattern: string)
    requires tree.Valid() && pattern in tree.nodes && Get(tree.Value(), []) >= 1
    modifies tree, tree.nodes.Values
    ensures tree.Valid() && tree.Value() == CountedRemoved(old(tree.Value()), pattern)
    ensures tree.nodes.Values <= old(tree.nodes.Values)
  {
    LowerRoot(tree);
    tree.WalkOut(pattern);
  }

  /** On a tree that holds a multiset, insertion adds one copy. */
  method PutInStored(tree: GlobTree, pattern: string, ghost stored: multiset<string>)
    requires tree.Valid() && Refines(tree.Value(), stored)
    modifies tree, tree.nodes.Values
    ensures tree.Valid() && Refines(tree.Value(), stored + multiset{pattern})
    ensures fresh(tree.nodes.Values - old(tree.nodes.Values))
  {
    InsertRefines(tree.Value(), stored, pattern);
    PutIn(tree, pattern);
  }

  /** On a tree that holds a multiset, removal takes one copy away. */
  method TakeOutStored(tree: GlobTree, pattern: string, ghost stored: multiset<string>)
    requires tree.Valid() && Refines(tree.Value(), stored) && pattern in stored
    modifies tree, tree.nodes.Values
    ensures tree.Valid() && Refines(tree.Value(), stored - multiset{pattern})
    ensures tree.nodes.Values <= old(tree.nodes.Values)
  {
    RootIsCounted(tree.Value(), stored, pattern);
    RemoveRefines(tree.Value(), stored, pattern);
    TakeOut(tree, pattern);
  }

  class CountedTree {
    const tree: GlobTree
    ghost var stored: multiset<string>

    ghost predicate Valid()
      reads this, tree, tree.nodes.Values
    {
      tree.Valid() && Refines(tree.Value(), stored)
    }

    constructor ()
      ensures Valid() && stored == multiset{}
      ensures fresh(tree) && fresh(tree.nodes.Values)
    {
      tree := new GlobTree();
      stored := multiset{};
      EmptyRefines();
    }

    /** The ghost record of what is stored. */
    ghost method Record(now: multiset<string>)
      requires tree.Valid()
      modifies this`stored
      ensures stored == now && tree.Valid() && tree.Value() == old(tree.Value())
    {
      stored := now;
    }

    method Insert(pattern: string)
      requires Valid()
      modifies this, tree, tree.nodes.Values
      ensures Valid() && stored == old(stored) + multiset{pattern}
      ensures fresh(tree.nodes.Values - old(tree.nodes.Values))
    {
      PutInStored(tree, pattern, stored);
      Record(stored + multiset{pattern});
    }

    method Remove(pattern: string) returns (result: Result)
      requires Valid()
      modifies this, tree, tree.nodes.Values
      ensures Valid() && stored == old(stored) - multiset{pattern}
      ensures result == if pattern in old(stored) then Ok else Err("Not found")
      ensures tree.nodes.Values <= old(tree.nodes.Values)
    {
      var found := Contains(pattern);
      if !found {
        assert stored - multiset{pattern} == stored;
        return Err("Not found");
      }
      RemoveStored(pattern);
      return Ok;
    }

    method RemoveStored(pattern: string)
      requires Valid() && pattern in stored
      modifies this, tree, tree.nodes.Values
      ensures Valid() && stored == old(stored) - multiset{pattern}
      ensures tree.nodes.Values <= old(tree.nodes.Values)
    {
      TakeOutStored(tree, pattern, stored);
      Record(stored - multiset{pattern});
    }

    method Contains(pattern: string) returns (found: bool)
      requires Valid()
      ensures found <==> pattern in stored
    {
      ListedIffStored(tree.Value(), stored, pattern);
      found := tree.Contains(pattern);
    }

    method List() returns (strings: seq<string>)
      requires Valid()
      ensures Increasing(strings)
      ensures forall p :: p in strings <==> p in stored
    {
      RefinedBehaviour(tree.Value(), stored);
      strings := tree.List();
    }

    function Check(s: string): (matched: bool)
      requires Valid()
      reads this, tree, tree.nodes.Values
      ensures matched <==> exists p :: p in stored && Matches(p, s)
    {
      RefinedBehaviour(tree.Value(), stored);
      tree.Check(s)
    }
  }
}
