/** Sorted listings of the patterns a tree holds. */
module Listing {
  import opened Counts

  /** Lexicographic order on strings, by character code. */
  ghost predicate LexLess(a: string, b: string) {
    || (a <= b && a != b)
    || exists k :: DiffersAt(a, b, k)
  }

  ghost predicate DiffersAt(a: string, b: string, k: nat) {
    k < |a| && k < |b| && a[..k] == b[..k] && a[k] < b[k]
  }

  ghost predicate Increasing(xs: seq<string>) {
    forall i, j :: 0 <= i < j < |xs| ==> LexLess(xs[i], xs[j])
  }

  /** Listed patterns that end at w or go through one of the children cs. */
  ghost predicate InPart(t: Trie, w: string, cs: set<char>, q: string) {
    Listed(t, q) && (q == w || exists c :: c in cs && w + [c] <= q)
  }

  /** xs holds exactly those patterns, in strictly increasing order. */
  ghost predicate IsPart(t: Trie, w: string, cs: set<char>, xs: seq<string>) {
    Increasing(xs) && forall q :: q in xs <==> InPart(t, w, cs, q)
  }

  /** xs holds exactly the listed patterns at or below w, in strictly increasing order. */
  ghost predicate IsListing(t: Trie, w: string, xs: seq<string>) {
    Increasing(xs) && forall q :: q in xs <==> w <= q && Listed(t, q)
  }

  lemma LexIrreflexive(a: string)
    ensures !LexLess(a, a)
  {
  }

  /** A strictly increasing listing has no duplicates. */
  lemma IncreasingHasNoDuplicates(xs: seq<string>, i: nat, j: nat)
    requires Increasing(xs) && i < j < |xs|
    ensures xs[i] != xs[j]
  {
    LexIrreflexive(xs[i]);
  }

  /** Before any child is visited, only w itself may have been output. */
  lemma InitialPart(t: Trie, w: string)
    ensures IsPart(t, w, {}, if Listed(t, w) then [w] else [])
  {
  }

  /** The next child's patterns go behind those already collected. */
  lemma AppendChild(t: Trie, w: string, cs: set<char>, m: char, xs: seq<string>, ys: seq<string>)
    requires IsPart(t, w, cs, xs) && IsListing(t, w + [m], ys)
    requires forall c :: c in cs ==> c < m
    ensures IsPart(t, w, cs + {m}, xs + ys)
  {
    var zs := xs + ys;
    forall i, j | 0 <= i < j < |zs| ensures LexLess(zs[i], zs[j]) {
      if i < |xs| <= j {
        assert xs[i] in xs && ys[j - |xs|] in ys;
        ChildAfter(t, w, cs, m, xs[i], ys[j - |xs|]);
      }
    }
    forall q ensures q in zs <==> InPart(t, w, cs + {m}, q) {
      assert q in zs <==> q in xs || q in ys;
      if InPart(t, w, cs + {m}, q) && q != w {
        var c :| c in cs + {m} && w + [c] <= q;
        assert c == m || c in cs;
      }
    }
  }

  lemma ChildAfter(t: Trie, w: string, cs: set<char>, m: char, x: string, y: string)
    requires InPart(t, w, cs, x) && w + [m] <= y
    requires forall c :: c in cs ==> c < m
    ensures LexLess(x, y)
  {
    assert w <= y && y[|w|] == m;
    if x != w {
      var c :| c in cs && w + [c] <= x;
      assert x[|w|] == c && x[..|w|] == w == y[..|w|];
      assert DiffersAt(x, y, |w|);
    }
  }

  /** Once every child is visited the listing below w is complete. */
  lemma PartIsListing(t: Trie, w: string, xs: seq<string>)
    requires WellFormed(t) && IsPart(t, w, Kids(t, w), xs)
    ensures IsListing(t, w, xs)
  {
    forall q ensures q in xs <==> w <= q && Listed(t, q) {
      if w <= q && Listed(t, q) && q != w {
        var c := q[|w|];
        assert w + [c] <= q;
        PrefixPresent(t, q, w + [c]);
        KidsMember(t, w, c);
      }
      if InPart(t, w, Kids(t, w), q) && q != w {
        var c :| c in Kids(t, w) && w + [c] <= q;
        assert w <= q;
      }
    }
  }
}
