/**
 The tree operations as functions on the tree's value, and what each does to the slack
 of every node, which alone decides what the tree lists and matches.
 Inserted and Removed are the operations as the crate has them. CountedInserted and
 CountedRemoved are the same walks with the root counted too and no extra final
 increment, so that a count is what its documentation says: the number of patterns
 which include the node.
 */
module Operations {
  import opened Counts

  datatype Op = Insert(pattern: string) | Remove(pattern: string)

  /** The nodes below the root that the first i characters of p lead through. */
  ghost predicate OnPath(p: string, i: nat, w: string) {
    0 < |w| <= i && w <= p
  }

  ghost function PathNodes(p: string, i: nat): set<string>
    requires i <= |p|
  {
    set k | 0 < k <= i :: p[..k]
  }

  lemma PathNodesMember(p: string, i: nat, w: string)
    requires i <= |p|
    ensures w in PathNodes(p, i) <==> OnPath(p, i, w)
  {
    if OnPath(p, i, w) {
      assert p[..|w|] == w;
    }
  }

  /** Every node on the first i steps of p exists and has one more reference. */
  ghost function Walked(t: Trie, p: string, i: nat): Trie
    requires i <= |p|
  {
    map w | w in t.Keys + PathNodes(p, i) :: Get(t, w) + if OnPath(p, i, w) then 1 else 0
  }

  /** Node v with one more reference, created if it does not exist. */
  ghost function Bumped(t: Trie, v: string): Trie {
    t[v := Get(t, v) + 1]
  }

  ghost function Inserted(t: Trie, p: string): Trie {
    Bumped(Walked(t, p, |p|), p)
  }

  /** The first step k >= i of p at which the node has a single reference; |p| + 1 if there is none. */
  ghost function FirstSingle(t: Trie, p: string, i: nat): (k: nat)
    requires 1 <= i <= |p| + 1
    ensures i <= k <= |p| + 1
    ensures forall j :: i <= j < k ==> Get(t, p[..j]) != 1
    ensures k <= |p| ==> Get(t, p[..k]) == 1
    decreases |p| + 1 - i
  {
    if i > |p| || Get(t, p[..i]) == 1 then i else FirstSingle(t, p, i + 1)
  }

  /** Every node on the first i steps of p has one reference less. */
  ghost function Lowered(t: Trie, p: string, i: nat): Trie {
    map w | w in t :: if OnPath(p, i, w) && t[w] > 0 then t[w] - 1 else t[w]
  }

  /** The tree without node v and everything below it. */
  ghost function Pruned(t: Trie, v: string): Trie {
    map w | w in t && !(v <= w) :: t[w]
  }

  /** The walk of a removal: lower the counts along p until a node with one reference is found and cut off. */
  ghost function Removed(t: Trie, p: string): Trie {
    var k := FirstSingle(t, p, 1);
    if k <= |p| then Pruned(Lowered(t, p, k - 1), p[..k]) else Lowered(t, p, |p|)
  }

  /** w is cut off when p is removed. */
  ghost predicate CutOff(t: Trie, p: string, w: string) {
    var k := FirstSingle(t, p, 1);
    k <= |p| && p[..k] <= w
  }

  ghost function CountedInserted(t: Trie, p: string): Trie {
    Walked(Bumped(t, []), p, |p|)
  }

  /** The root with one reference less. */
  ghost function Uncounted(t: Trie): Trie
    requires Get(t, []) >= 1
  {
    t[[] := t[[]] - 1]
  }

  ghost function CountedRemoved(t: Trie, p: string): Trie
    requires Get(t, []) >= 1
  {
    Removed(Uncounted(t), p)
  }

  lemma PrefixStep(w: string, d: char, p: string)
    ensures w + [d] <= p <==> w <= p && |w| < |p| && p[|w|] == d
  {
  }

  // ---------------------------------------------------------------------------
  // Insertion

  lemma WalkedGet(t: Trie, p: string, i: nat, w: string)
    requires i <= |p|
    ensures Get(Walked(t, p, i), w) == Get(t, w) + if OnPath(p, i, w) then 1 else 0
    ensures w in Walked(t, p, i) <==> w in t || OnPath(p, i, w)
  {
    PathNodesMember(p, i, w);
  }

  lemma WalkedStep(t: Trie, p: string, i: nat)
    requires i < |p|
    ensures Walked(t, p, i + 1) == Bumped(Walked(t, p, i), p[..i + 1])
  {
    var u, u', v := Walked(t, p, i), Walked(t, p, i + 1), p[..i + 1];
    forall w ensures w in u' <==> w in u || w == v
             ensures Get(u', w) == Get(u, w) + if w == v then 1 else 0 {
      WalkedGet(t, p, i, w);
      WalkedGet(t, p, i + 1, w);
    }
    forall w | w in u' ensures u'[w] == Get(u', w) {}
  }

  lemma WalkedWellFormed(t: Trie, p: string)
    requires WellFormed(t)
    ensures WellFormed(Walked(t, p, |p|))
    ensures p in Walked(t, p, |p|)
  {
    var u := Walked(t, p, |p|);
    forall w | w in u && w != [] ensures Parent(w) in u && u[w] >= 1 {
      WalkedGet(t, p, |p|, w);
      WalkedGet(t, p, |p|, Parent(w));
    }
    WalkedGet(t, p, |p|, p);
    WalkedGet(t, p, |p|, []);
  }

  /** What walking p adds to the slack of w, before the final increment. */
  ghost function WalkDelta(p: string, w: string): int {
    if w == p then if p == [] then 0 else 1
    else if w == [] then -1
    else 0
  }

  lemma WalkedSlack(t: Trie, p: string, w: string)
    ensures Slack(Walked(t, p, |p|), w) == Slack(t, w) + WalkDelta(p, w)
  {
    var u := Walked(t, p, |p|);
    WalkedGet(t, p, |p|, w);
    forall d ensures Get(u, w + [d]) == Get(t, w + [d]) + if w <= p && |w| < |p| && p[|w|] == d then 1 else 0 {
      WalkedGet(t, p, |p|, w + [d]);
      PrefixStep(w, d, p);
    }
    if w <= p && w != p {
      ChildSumDelta(t, u, w, p[|w|]);
    } else {
      ChildSumSame(t, u, w);
    }
  }

  /** What one more reference at node p does to the slack of w. */
  ghost function FinalDelta(p: string, w: string): int {
    if w == p then 1
    else if p != [] && w == Parent(p) then -1
    else 0
  }

  lemma FinalSlack(u: Trie, p: string, w: string)
    ensures Slack(Bumped(u, p), w) == Slack(u, w) + FinalDelta(p, w)
  {
    var t' := Bumped(u, p);
    if p != [] && w == Parent(p) {
      assert w + [p[|w|]] == p;
      ChildSumDelta(u, t', w, p[|w|]);
    } else {
      forall d ensures w + [d] != p {
        assert Parent(w + [d]) == w;
      }
      ChildSumSame(u, t', w);
    }
  }

  /** What inserting p does to the slack of w, as the crate has it. */
  ghost function InsertDelta(p: string, w: string): int {
    if w == p then if p == [] then 1 else 2
    else if p == [] then 0
    else if w == [] then if |p| == 1 then -2 else -1
    else if w == Parent(p) then -1
    else 0
  }

  /** As written, an insertion of p adds two to the slack of p and takes one or two from its parent and the root. */
  lemma InsertSlack(t: Trie, p: string, w: string)
    ensures Slack(Inserted(t, p), w) == Slack(t, w) + InsertDelta(p, w)
  {
    var u := Walked(t, p, |p|);
    WalkedSlack(t, p, w);
    FinalSlack(u, p, w);
    assert InsertDelta(p, w) == WalkDelta(p, w) + FinalDelta(p, w);
  }

  lemma InsertedGet(t: Trie, p: string, w: string)
    ensures Get(Inserted(t, p), w) ==
            Get(t, w) + (if OnPath(p, |p|, w) then 1 else 0) + if w == p then 1 else 0
    ensures w in Inserted(t, p) <==> w in t || OnPath(p, |p|, w) || w == p
  {
    WalkedGet(t, p, |p|, w);
    WalkedGet(t, p, |p|, p);
  }

  lemma InsertedWellFormed(t: Trie, p: string)
    requires WellFormed(t)
    ensures WellFormed(Inserted(t, p))
  {
    WalkedWellFormed(t, p);
  }

  /** With the root counted and no final increment, insertion adds one to the slack of p and changes no other. */
  lemma CountedInsertSlack(t: Trie, p: string, w: string)
    ensures Slack(CountedInserted(t, p), w) == Slack(t, w) + if w == p then 1 else 0
  {
    var r := Bumped(t, []);
    ChildSumSame(t, r, w);
    WalkedSlack(r, p, w);
  }

  // ---------------------------------------------------------------------------
  // Removal

  /** The first i steps of p meet no node with a single reference. */
  ghost predicate NoSingle(t: Trie, p: string, i: nat)
    requires i <= |p|
  {
    forall j :: 0 < j <= i ==> Get(t, p[..j]) != 1
  }

  /** One step of the walk: either it cuts and is finished, or it lowers one more count. */
  lemma LoweredStep(t: Trie, p: string, i: nat)
    requires i < |p| && p[..i + 1] in t && NoSingle(t, p, i)
    ensures var u, v := Lowered(t, p, i), p[..i + 1];
            && v in u && u[v] == t[v]
            && (u[v] == 1 ==> Removed(t, p) == Pruned(u, v))
            && (u[v] > 1 ==> Lowered(t, p, i + 1) == u[v := u[v] - 1] && NoSingle(t, p, i + 1))
  {
    var v := p[..i + 1];
    forall w ensures OnPath(p, i + 1, w) <==> OnPath(p, i, w) || w == v {
    }
    if t[v] == 1 {
      assert FirstSingle(t, p, 1) == i + 1;
    }
  }

  lemma RemovedWhole(t: Trie, p: string)
    requires NoSingle(t, p, |p|)
    ensures Removed(t, p) == Lowered(t, p, |p|)
  {
    assert FirstSingle(t, p, 1) == |p| + 1;
  }

  lemma RemovedGet(t: Trie, p: string, w: string)
    requires WellFormed(t)
    ensures w in Removed(t, p) <==> w in t && !CutOff(t, p, w)
    ensures Get(Removed(t, p), w) ==
            if CutOff(t, p, w) then 0
            else Get(t, w) - if OnPath(p, |p|, w) && w in t then 1 else 0
  {
    var k := FirstSingle(t, p, 1);
    if w in t && w != [] {
      assert t[w] >= 1;
    }
    if k <= |p| && OnPath(p, |p|, w) && !(p[..k] <= w) {
      assert |w| < k;
    }
  }

  lemma OnPathBeforeCut(t: Trie, p: string, w: string)
    requires OnPath(p, |p|, w) && !CutOff(t, p, w)
    ensures |w| < FirstSingle(t, p, 1) && p[..|w|] == w
  {
  }

  lemma RemovedWellFormed(t: Trie, p: string)
    requires WellFormed(t)
    ensures WellFormed(Removed(t, p))
  {
    var t' := Removed(t, p);
    var k := FirstSingle(t, p, 1);
    RemovedGet(t, p, []);
    forall w | w in t' && w != [] ensures Parent(w) in t' && t'[w] >= 1 {
      RemovedGet(t, p, w);
      RemovedGet(t, p, Parent(w));
      if OnPath(p, |p|, w) {
        OnPathBeforeCut(t, p, w);
        assert Get(t, p[..|w|]) != 1;
      }
    }
  }

  /** What a removal of p does to the slack of a node w that is not cut off. */
  ghost function RemoveDelta(p: string, w: string): int {
    if w == p then if p == [] then 0 else -1
    else if w == [] then 1
    else 0
  }

  /** As written, a removal of p takes one from the slack of p and gives one to the root; a cut-off node has none. */
  lemma RemoveSlack(t: Trie, p: string, w: string)
    requires WellFormed(t) && p in t
    ensures CutOff(t, p, w) ==> Slack(Removed(t, p), w) == 0
    ensures !CutOff(t, p, w) ==> Slack(Removed(t, p), w) == Slack(t, w) + RemoveDelta(p, w)
  {
    var t' := Removed(t, p);
    RemovedWellFormed(t, p);
    RemovedGet(t, p, w);
    if CutOff(t, p, w) {
      AbsentSlack(t', w);
    } else {
      forall d ensures w + [d] <= p ==> w + [d] in t && Get(t', w + [d]) == Get(t, w + [d]) - 1
               ensures !(w + [d] <= p) ==> Get(t', w + [d]) == Get(t, w + [d]) {
        RemovedChild(t, p, w, d);
      }
      if w <= p && w != p {
        PrefixPresent(t, p, w);
        forall d | d != p[|w|] ensures Get(t, w + [d]) == Get(t', w + [d]) {
          PrefixStep(w, d, p);
        }
        assert w + [p[|w|]] <= p;
        ChildSumDelta(t, t', w, p[|w|]);
      } else {
        forall d ensures !(w + [d] <= p) {
          PrefixStep(w, d, p);
        }
        ChildSumSame(t, t', w);
      }
    }
  }

  /** Below a node that stays, the child on the path loses exactly one reference, even when it is cut off. */
  lemma RemovedChild(t: Trie, p: string, w: string, d: char)
    requires WellFormed(t) && p in t && !CutOff(t, p, w)
    ensures w + [d] <= p ==> w + [d] in t && Get(Removed(t, p), w + [d]) == Get(t, w + [d]) - 1
    ensures !(w + [d] <= p) ==> Get(Removed(t, p), w + [d]) == Get(t, w + [d])
  {
    var v := w + [d];
    var k := FirstSingle(t, p, 1);
    RemovedGet(t, p, v);
    if v <= p {
      PrefixPresent(t, p, v);
    }
    if CutOff(t, p, v) {
      assert !(p[..k] <= w) && p[..k] <= w + [d];
      assert |p[..k]| == |w| + 1;
      assert p[..k] == v;
    }
  }

  lemma CountedRemoveSlack(t: Trie, p: string, w: string)
    requires WellFormed(t) && p in t && t[[]] >= 1
    ensures CutOff(t, p, w) ==> Slack(CountedRemoved(t, p), w) == 0
    ensures !CutOff(t, p, w) ==> Slack(CountedRemoved(t, p), w) == Slack(t, w) - if w == p then 1 else 0
  {
    var r := Uncounted(t);
    SameFirstSingle(t, r, p, 1);
    ChildSumSame(t, r, w);
    RemoveSlack(r, p, w);
  }

  lemma {:induction false} SameFirstSingle(t: Trie, r: Trie, p: string, i: nat)
    requires 1 <= i <= |p| + 1
    requires forall w :: w != [] ==> Get(t, w) == Get(r, w)
    ensures FirstSingle(t, p, i) == FirstSingle(r, p, i)
    decreases |p| + 1 - i
  {
    if i <= |p| {
      assert p[..i] != [];
      if Get(t, p[..i]) != 1 {
        SameFirstSingle(t, r, p, i + 1);
      }
    }
  }
}
