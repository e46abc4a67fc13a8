/**
 The value of a reference-counted character trie: the path of every node, with its
 count. The children of node w are the nodes w + [c], in character order.
 */
module Counts {
  import opened Patterns

  type Trie = map<string, nat>

  /** Smallest member of a non-empty set of characters (the first key of a BTreeMap). */
  function MinChar(cs: set<char>): (c: char)
    requires cs != {}
    ensures c in cs && forall d :: d in cs ==> c <= d
  {
    MinCharExists(cs);
    var c :| c in cs && forall d :: d in cs ==> c <= d;
    c
  }

  lemma MinCharExists(cs: set<char>)
    requires cs != {}
    ensures exists c :: c in cs && forall d :: d in cs ==> c <= d
  {
    var x :| x in cs;
    if cs != {x} {
      var rest := cs - {x};
      MinCharExists(rest);
      var m :| m in rest && forall d :: d in rest ==> m <= d;
      var c := if x <= m then x else m;
      assert forall d :: d in cs ==> d == x || d in rest;
      assert c in cs && forall d :: d in cs ==> c <= d;
    }
  }

  ghost function Get(t: Trie, w: string): nat {
    if w in t then t[w] else 0
  }

  /** The parent of a node other than the root. */
  ghost function Parent(w: string): string
    requires w != []
  {
    w[..|w| - 1]
  }

  /** The tokens under which node w has a child. */
  ghost function Kids(t: Trie, w: string): set<char> {
    set v | v in t && v != [] && Parent(v) == w :: v[|v| - 1]
  }

  lemma SnocInjective(w: string, c: char, v: string, d: char)
    ensures w + [c] == v + [d] <==> w == v && c == d
  {
    if w + [c] == v + [d] {
      assert w == (w + [c])[..|w|] && v == (v + [d])[..|v|];
      assert c == (w + [c])[|w|] && d == (v + [d])[|v|];
    }
  }

  lemma TakeSnoc(p: string, i: nat)
    requires i < |p|
    ensures p[..i + 1] == p[..i] + [p[i]]
  {
  }

  lemma ParentSnoc(v: string)
    requires v != []
    ensures v == Parent(v) + [v[|v| - 1]]
  {
  }

  lemma ParentOfSnoc(w: string, c: char)
    ensures Parent(w + [c]) == w && (w + [c])[|w|] == c
  {
  }

  lemma PrefixOfParent(v: string, u: string)
    requires u != []
    ensures v <= u <==> v <= Parent(u) || v == u
  {
    ParentSnoc(u);
    PrefixOfSnoc(v, Parent(u), u[|u| - 1]);
  }

  lemma SameParent(v: string, u: string)
    requires v != [] && u != []
    ensures v == u <==> Parent(v) == Parent(u) && v[|v| - 1] == u[|u| - 1]
  {
    ParentSnoc(u);
    ParentSnoc(v);
  }

  lemma PrefixOfSnoc(v: string, u: string, d: char)
    ensures v <= u + [d] <==> v <= u || v == u + [d]
  {
    if v <= u + [d] && |v| == |u| + 1 {
      assert v == u + [d];
    }
  }

  lemma KidsMember(t: Trie, w: string, c: char)
    ensures c in Kids(t, w) <==> w + [c] in t
  {
    if w + [c] in t {
      var v := w + [c];
      assert Parent(v) == w && v[|v| - 1] == c;
    }
    if c in Kids(t, w) {
      var v :| v in t && v != [] && Parent(v) == w && v[|v| - 1] == c;
      assert v == w + [c];
    }
  }

  ghost function SumOver(t: Trie, w: string, cs: set<char>): nat {
    if cs == {} then 0 else
    var c := MinChar(cs);
    Get(t, w + [c]) + SumOver(t, w, cs - {c})
  }

  /** The cumulative number of references to children of node w. */
  ghost function ChildSum(t: Trie, w: string): nat {
    SumOver(t, w, Kids(t, w))
  }

  /** How many more references node w has than its children: positive exactly on terminal nodes. */
  ghost function Slack(t: Trie, w: string): int {
    Get(t, w) - ChildSum(t, w)
  }

  /** Node w exists and terminates a pattern. */
  ghost predicate Listed(t: Trie, w: string) {
    w in t && ChildSum(t, w) < t[w]
  }

  /** Shape of every tree: a root, no orphans, and no unreferenced node below the root. */
  ghost predicate WellFormed(t: Trie) {
    && [] in t
    && (forall w :: w in t && w != [] ==> t[w] >= 1)
    && (forall w {:trigger Parent(w)} :: w in t && w != [] ==> Parent(w) in t)
  }

  const EMPTY: Trie := map[[] := 0]

  lemma {:induction false} SumExtract(t: Trie, w: string, cs: set<char>, c: char)
    requires c in cs
    ensures SumOver(t, w, cs) == Get(t, w + [c]) + SumOver(t, w, cs - {c})
  {
    var m := MinChar(cs);
    if m != c {
      var without := cs - {c};
      assert m in without;
      assert MinChar(without) == m;
      SumExtract(t, w, cs - {m}, c);
      assert (cs - {m}) - {c} == without - {m};
    }
  }

  lemma {:induction false} SumFrame(t: Trie, t': Trie, w: string, cs: set<char>)
    requires forall c :: c in cs ==> Get(t, w + [c]) == Get(t', w + [c])
    ensures SumOver(t, w, cs) == SumOver(t', w, cs)
  {
    if cs != {} {
      SumFrame(t, t', w, cs - {MinChar(cs)});
    }
  }

  /** Characters without a child add nothing to the sum. */
  lemma {:induction false} SumWiden(t: Trie, w: string, cs: set<char>, more: set<char>)
    requires cs <= more
    requires forall c :: c in more - cs ==> Get(t, w + [c]) == 0
    ensures SumOver(t, w, more) == SumOver(t, w, cs)
    decreases more
  {
    if cs != more {
      assert !(more <= cs);
      var c :| c in more && c !in cs;
      assert cs <= more - {c};
      SumExtract(t, w, more, c);
      SumWiden(t, w, cs, more - {c});
    }
  }

  lemma ChildSumVia(t: Trie, w: string, cs: set<char>)
    requires Kids(t, w) <= cs
    ensures ChildSum(t, w) == SumOver(t, w, cs)
  {
    forall c | c in cs - Kids(t, w) ensures Get(t, w + [c]) == 0 {
      KidsMember(t, w, c);
    }
    SumWiden(t, w, Kids(t, w), cs);
  }

  /** Two trees that differ below w only at child c have child sums that differ by that child alone. */
  lemma ChildSumDelta(t: Trie, t': Trie, w: string, c: char)
    requires forall d :: d != c ==> Get(t, w + [d]) == Get(t', w + [d])
    ensures ChildSum(t, w) - Get(t, w + [c]) == ChildSum(t', w) - Get(t', w + [c])
  {
    var all := Kids(t, w) + Kids(t', w) + {c};
    ChildSumVia(t, w, all);
    ChildSumVia(t', w, all);
    SumExtract(t, w, all, c);
    SumExtract(t', w, all, c);
    SumFrame(t, t', w, all - {c});
  }

  lemma ChildSumSame(t: Trie, t': Trie, w: string)
    requires forall d :: Get(t, w + [d]) == Get(t', w + [d])
    ensures ChildSum(t, w) == ChildSum(t', w)
  {
    ChildSumDelta(t, t', w, 'a');
  }

  lemma ChildSumZero(t: Trie, w: string)
    requires forall d :: w + [d] !in t
    ensures ChildSum(t, w) == 0
  {
    forall d | d in Kids(t, w) ensures false {
      KidsMember(t, w, d);
    }
  }

  lemma {:induction false} PrefixPresent(t: Trie, w: string, v: string)
    requires WellFormed(t) && w in t && v <= w
    ensures v in t
    decreases |w|
  {
    if v != w {
      assert v <= Parent(w);
      PrefixPresent(t, Parent(w), v);
    }
  }

  lemma AbsentSlack(t: Trie, w: string)
    requires WellFormed(t) && w !in t
    ensures Slack(t, w) == 0
  {
    forall d | w + [d] in t ensures false {
      PrefixPresent(t, w + [d], w);
    }
    ChildSumZero(t, w);
  }

  /** Being listed is having positive slack. */
  lemma ListedIffSlack(t: Trie, w: string)
    requires WellFormed(t)
    ensures Listed(t, w) <==> Slack(t, w) > 0
  {
    if w !in t {
      AbsentSlack(t, w);
    }
  }

  lemma EmptyTree()
    ensures WellFormed(EMPTY)
    ensures forall w :: Slack(EMPTY, w) == 0
  {
    forall w ensures Slack(EMPTY, w) == 0 {
      ChildSumZero(EMPTY, w);
    }
  }

  // ---------------------------------------------------------------------------
  // Matching against all stored patterns at once

  ghost function From(s: string, pos: nat): string {
    if pos <= |s| then s[pos..] else []
  }

  /** What is left of pattern q once the walk stands before node w's own token. */
  ghost function Rest(q: string, w: string): string
    requires w <= q
  {
    if w == [] then q else q[|w| - 1..]
  }

  ghost predicate Reaches(t: Trie, w: string, q: string, s: string, pos: nat) {
    w <= q && Listed(t, q) && Matches(Rest(q, w), From(s, pos))
  }

  /** Some listed pattern at or below node w matches s from position pos on. */
  ghost predicate Found(t: Trie, w: string, s: string, pos: nat) {
    exists q :: Reaches(t, w, q, s, pos)
  }

  /** Some listed pattern matches s. */
  ghost predicate Check(t: Trie, s: string) {
    exists q :: Listed(t, q) && Matches(q, s)
  }

  lemma CheckIsFoundAtRoot(t: Trie, s: string)
    ensures Check(t, s) <==> Found(t, [], s, 0)
  {
    assert From(s, 0) == s;
    if Check(t, s) {
      var q :| Listed(t, q) && Matches(q, s);
      assert Reaches(t, [], q, s, 0);
    }
    if Found(t, [], s, 0) {
      var q :| Reaches(t, [], q, s, 0);
      assert Listed(t, q) && Matches(q, s);
    }
  }

  /** The first character of the subject decides which child a longer pattern goes through. */
  lemma RestOfExtension(w: string, q: string, s: string, pos: nat)
    requires w <= q && w != q && pos < |s|
    ensures var c := q[|w|]; w + [c] <= q && Rest(q, w + [c]) == q[|w|..]
    ensures Matches(q[|w|..], s[pos..]) ==> Accepts(q[|w|], s[pos])
  {
    if Matches(q[|w|..], s[pos..]) {
      MatchesUnfold(q[|w|..], s[pos..]);
    }
  }

  /** Patterns strictly below w that match s[pos..] are found through the three children that accept s[pos]. */
  ghost predicate FoundInChildren(t: Trie, w: string, s: string, pos: nat)
    requires pos < |s|
  {
    || Found(t, w + [s[pos]], s, pos)
    || Found(t, w + [SINGLE_CHARACTER_WILDCARD], s, pos)
    || Found(t, w + [MULTI_CHARACTER_WILDCARD], s, pos)
  }

  lemma ExtensionFound(t: Trie, w: string, q: string, s: string, pos: nat)
    requires w <= q && w != q && pos < |s| && Listed(t, q) && Matches(q[|w|..], s[pos..])
    ensures FoundInChildren(t, w, s, pos)
  {
    RestOfExtension(w, q, s, pos);
    assert Reaches(t, w + [q[|w|]], q, s, pos);
  }

  lemma FoundBelowChild(t: Trie, w: string, c: char, s: string, pos: nat) returns (q: string)
    requires pos < |s| && Found(t, w + [c], s, pos)
    ensures w <= q && w != q && Listed(t, q) && Matches(q[|w|..], s[pos..])
  {
    q :| Reaches(t, w + [c], q, s, pos);
    assert Rest(q, w + [c]) == q[|w|..];
  }

  lemma FoundExtension(t: Trie, w: string, s: string, pos: nat) returns (q: string)
    requires pos < |s| && FoundInChildren(t, w, s, pos)
    ensures w <= q && w != q && Listed(t, q) && Matches(q[|w|..], s[pos..])
  {
    if Found(t, w + [s[pos]], s, pos) {
      q := FoundBelowChild(t, w, s[pos], s, pos);
    } else if Found(t, w + [SINGLE_CHARACTER_WILDCARD], s, pos) {
      q := FoundBelowChild(t, w, SINGLE_CHARACTER_WILDCARD, s, pos);
    } else {
      q := FoundBelowChild(t, w, MULTI_CHARACTER_WILDCARD, s, pos);
    }
  }

  /** One step of the matcher at the root, which consumes nothing. */
  lemma RootStep(t: Trie, s: string, pos: nat)
    ensures pos < |s| ==> (Found(t, [], s, pos) <==> FoundInChildren(t, [], s, pos))
    ensures pos >= |s| ==> (Found(t, [], s, pos) <==> Listed(t, []))
  {
    if Found(t, [], s, pos) {
      var q :| Reaches(t, [], q, s, pos);
      if pos < |s| {
        if q == [] {
          EmptyPatternMatches(s[pos..]);
        } else {
          ExtensionFound(t, [], q, s, pos);
        }
      } else if q != [] {
        NonEmptyPatternNeedsSubject(q);
      }
    }
    if pos < |s| {
      if FoundInChildren(t, [], s, pos) {
        var q := FoundExtension(t, [], s, pos);
        assert Reaches(t, [], q, s, pos);
      }
    } else if Listed(t, []) {
      EmptyPatternMatches([]);
      assert From(s, pos) == [] && Rest([], []) == [];
      assert Reaches(t, [], [], s, pos);
    }
  }

  /** One step of the matcher at an inner node, which consumes s[pos] whatever its token. */
  lemma NodeStep(t: Trie, w: string, s: string, pos: nat)
    requires w != []
    ensures pos >= |s| ==> !Found(t, w, s, pos)
    ensures pos < |s| && !Accepts(w[|w| - 1], s[pos]) ==> !Found(t, w, s, pos)
    ensures pos + 1 == |s| && Accepts(w[|w| - 1], s[pos]) ==> (Found(t, w, s, pos) <==> Listed(t, w))
    ensures pos + 1 < |s| && Accepts(w[|w| - 1], s[pos]) ==>
      (Found(t, w, s, pos) <==>
        || FoundInChildren(t, w, s, pos + 1)
        || (w[|w| - 1] == MULTI_CHARACTER_WILDCARD && Found(t, w, s, pos + 1)))
  {
    if Found(t, w, s, pos) {
      var q :| Reaches(t, w, q, s, pos);
      NodeStepDown(t, w, q, s, pos);
    }
    if pos + 1 == |s| && Accepts(w[|w| - 1], s[pos]) && Listed(t, w) {
      NodeStepEnd(t, w, s, pos);
    }
    if pos + 1 < |s| && Accepts(w[|w| - 1], s[pos]) {
      NodeStepUp(t, w, s, pos);
    }
  }

  lemma NodeStepEnd(t: Trie, w: string, s: string, pos: nat)
    requires w != [] && pos + 1 == |s| && Accepts(w[|w| - 1], s[pos]) && Listed(t, w)
    ensures Found(t, w, s, pos)
  {
    var c := w[|w| - 1];
    assert Rest(w, w) == [c] && [c][1..] == [] && s[pos..][1..] == [];
    EmptyPatternMatches([]);
    MatchesUnfold([c], s[pos..]);
    assert Reaches(t, w, w, s, pos);
  }

  lemma NodeStepUp(t: Trie, w: string, s: string, pos: nat)
    requires w != [] && pos + 1 < |s| && Accepts(w[|w| - 1], s[pos])
    ensures FoundInChildren(t, w, s, pos + 1) ==> Found(t, w, s, pos)
    ensures w[|w| - 1] == MULTI_CHARACTER_WILDCARD && Found(t, w, s, pos + 1) ==> Found(t, w, s, pos)
  {
    assert s[pos..][1..] == s[pos + 1..];
    if FoundInChildren(t, w, s, pos + 1) {
      var q := FoundExtension(t, w, s, pos + 1);
      assert Rest(q, w)[1..] == q[|w|..];
      MatchesUnfold(Rest(q, w), s[pos..]);
      assert Reaches(t, w, q, s, pos);
    }
    if w[|w| - 1] == MULTI_CHARACTER_WILDCARD && Found(t, w, s, pos + 1) {
      var q :| Reaches(t, w, q, s, pos + 1);
      MatchesUnfold(Rest(q, w), s[pos..]);
      assert Reaches(t, w, q, s, pos);
    }
  }

  lemma NodeStepDown(t: Trie, w: string, q: string, s: string, pos: nat)
    requires w != [] && Reaches(t, w, q, s, pos)
    ensures pos < |s| && Accepts(w[|w| - 1], s[pos])
    ensures pos + 1 == |s| ==> q == w
    ensures pos + 1 < |s| ==>
      || FoundInChildren(t, w, s, pos + 1)
      || (w[|w| - 1] == MULTI_CHARACTER_WILDCARD && Found(t, w, s, pos + 1))
  {
    var rest := Rest(q, w);
    assert rest[0] == w[|w| - 1] && rest[1..] == q[|w|..];
    if pos >= |s| {
      NonEmptyPatternNeedsSubject(rest);
    } else {
      assert s[pos..][1..] == s[pos + 1..];
      MatchesUnfold(rest, s[pos..]);
      if pos + 1 == |s| {
        NonEmptyPatternNeedsSubject(rest);
        if q != w {
          NonEmptyPatternNeedsSubject(q[|w|..]);
        }
      } else if Matches(q[|w|..], s[pos + 1..]) {
        if q == w {
          EmptyPatternMatches(s[pos + 1..]);
        } else {
          ExtensionFound(t, w, q, s, pos + 1);
        }
      } else {
        assert Reaches(t, w, q, s, pos + 1);
      }
    }
  }
}
