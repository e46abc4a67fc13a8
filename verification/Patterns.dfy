/**
 What it means for one glob pattern to match one subject, stated without reference
 to any tree: the subject is cut into one piece per pattern character.
 Subjects are sequences of byte-valued characters, as the matcher reads them.
 */
module Patterns {

  const MULTI_CHARACTER_WILDCARD: char := '*'
  const SINGLE_CHARACTER_WILDCARD: char := '?'

  /** The piece of the subject that pattern character c may stand for. */
  ghost predicate PieceFits(c: char, piece: string) {
    if c == MULTI_CHARACTER_WILDCARD then |piece| >= 1
    else if c == SINGLE_CHARACTER_WILDCARD then |piece| == 1
    else piece == [c]
  }

  ghost function Flatten(pieces: seq<string>): string {
    if pieces == [] then [] else pieces[0] + Flatten(pieces[1..])
  }

  /** pieces cuts s into one fitting piece per character of p. */
  ghost predicate Splits(p: string, s: string, pieces: seq<string>) {
    && |pieces| == |p|
    && Flatten(pieces) == s
    && forall i :: 0 <= i < |p| ==> PieceFits(p[i], pieces[i])
  }

  ghost predicate Matches(p: string, s: string) {
    exists pieces :: Splits(p, s, pieces)
  }

  /** A pattern character accepts a single subject character. */
  predicate Accepts(c: char, x: char) {
    c == x || c == MULTI_CHARACTER_WILDCARD || c == SINGLE_CHARACTER_WILDCARD
  }

  lemma EmptyPatternMatches(s: string)
    ensures Matches([], s) <==> s == []
  {
    if s == [] {
      assert Splits([], [], []);
    }
  }

  lemma SplitsTail(p: string, s: string, pieces: seq<string>)
    requires p != [] && Splits(p, s, pieces)
    ensures pieces[0] + Flatten(pieces[1..]) == s && |pieces[0]| >= 1
    ensures Splits(p[1..], Flatten(pieces[1..]), pieces[1..])
  {
    assert PieceFits(p[0], pieces[0]);
    forall i | 0 <= i < |p[1..]| ensures PieceFits(p[1..][i], pieces[1..][i]) {
      assert PieceFits(p[i + 1], pieces[i + 1]);
    }
  }

  lemma SplitsCons(p: string, s: string, piece: string, rest: seq<string>)
    requires p != [] && PieceFits(p[0], piece) && Splits(p[1..], s, rest)
    ensures Splits(p, piece + s, [piece] + rest)
  {
    var pieces := [piece] + rest;
    assert pieces[1..] == rest;
    forall i | 0 <= i < |p| ensures PieceFits(p[i], pieces[i]) {
      if i > 0 {
        assert PieceFits(p[1..][i - 1], rest[i - 1]);
      }
    }
  }

  /** No character of a pattern stands for nothing. */
  lemma NonEmptyPatternNeedsSubject(p: string)
    requires p != []
    ensures !Matches(p, [])
  {
    forall pieces | Splits(p, [], pieces) ensures false {
      SplitsTail(p, [], pieces);
    }
  }

  lemma MatchesForward(p: string, s: string)
    requires p != [] && s != [] && Matches(p, s)
    ensures Accepts(p[0], s[0])
    ensures Matches(p[1..], s[1..]) || (p[0] == MULTI_CHARACTER_WILDCARD && Matches(p, s[1..]))
  {
    var pieces :| Splits(p, s, pieces);
    SplitsTail(p, s, pieces);
    var rest := Flatten(pieces[1..]);
    assert PieceFits(p[0], pieces[0]);
    assert s[0] == pieces[0][0];
    if |pieces[0]| == 1 {
      assert s[1..] == rest;
      assert Splits(p[1..], s[1..], pieces[1..]);
    } else {
      var shorter := pieces[0][1..];
      assert s[1..] == shorter + rest;
      SplitsCons(p, rest, shorter, pieces[1..]);
      assert Splits(p, s[1..], [shorter] + pieces[1..]);
    }
  }

  lemma MatchesBackward(p: string, s: string)
    requires p != [] && s != [] && Accepts(p[0], s[0])
    requires Matches(p[1..], s[1..]) || (p[0] == MULTI_CHARACTER_WILDCARD && Matches(p, s[1..]))
    ensures Matches(p, s)
  {
    assert s == [s[0]] + s[1..];
    if Matches(p[1..], s[1..]) {
      var rest :| Splits(p[1..], s[1..], rest);
      SplitsCons(p, s[1..], [s[0]], rest);
      assert Splits(p, s, [[s[0]]] + rest);
    } else {
      var pieces :| Splits(p, s[1..], pieces);
      SplitsTail(p, s[1..], pieces);
      var longer := [s[0]] + pieces[0];
      assert PieceFits(p[0], longer);
      SplitsCons(p, Flatten(pieces[1..]), longer, pieces[1..]);
      assert longer + Flatten(pieces[1..]) == s;
      assert Splits(p, s, [longer] + pieces[1..]);
    }
  }

  /** Consuming one subject character: either the pattern advances, or a `*` stays and takes more. */
  lemma MatchesUnfold(p: string, s: string)
    requires p != [] && s != []
    ensures Matches(p, s) <==>
      && Accepts(p[0], s[0])
      && (Matches(p[1..], s[1..]) || (p[0] == MULTI_CHARACTER_WILDCARD && Matches(p, s[1..])))
  {
    if Matches(p, s) {
      MatchesForward(p, s);
    } else if Accepts(p[0], s[0]) && (Matches(p[1..], s[1..]) || (p[0] == MULTI_CHARACTER_WILDCARD && Matches(p, s[1..]))) {
      MatchesBackward(p, s);
    }
  }

  /** A match needs at least one subject character per pattern character. */
  lemma {:induction false} MatchLength(p: string, s: string)
    requires Matches(p, s)
    ensures |s| >= |p|
  {
    if p != [] {
      var pieces :| Splits(p, s, pieces);
      SplitsTail(p, s, pieces);
      MatchLength(p[1..], Flatten(pieces[1..]));
    }
  }
}
