/**
 What the crate documentation lets a pattern match, against what the code matches. The documentation speaks of
 texts, character by character; the code reads the pattern by character and the text by byte.
 */
module Documented {
  import opened Patterns
  import opened Encoding

  /** `*` stands for any number of characters, none included; everything else for exactly one. */
  ghost predicate DocumentedPieceFits(c: char, piece: string) {
    c == MULTI_CHARACTER_WILDCARD || PieceFits(c, piece)
  }

  ghost predicate DocumentedSplits(p: string, text: string, pieces: seq<string>) {
    && |pieces| == |p|
    && Flatten(pieces) == text
    && forall i :: 0 <= i < |p| ==> DocumentedPieceFits(p[i], pieces[i])
  }

  ghost predicate DocumentedMatches(p: string, text: string) {
    exists pieces :: DocumentedSplits(p, text, pieces)
  }

  /** What the code answers for a text. */
  ghost predicate CodeMatches(p: string, text: string) {
    Matches(p, Bytes(text))
  }

  // ---------------------------------------------------------------------------
  // The documented meaning

  lemma DocumentedCons(p: string, piece: string, text: string)
    requires p != [] && DocumentedPieceFits(p[0], piece) && DocumentedMatches(p[1..], text)
    ensures DocumentedMatches(p, piece + text)
  {
    var rest :| DocumentedSplits(p[1..], text, rest);
    var pieces := [piece] + rest;
    assert pieces[1..] == rest;
    forall i | 0 <= i < |p| ensures DocumentedPieceFits(p[i], pieces[i]) {
      assert i > 0 ==> p[i] == p[1..][i - 1];
    }
    assert DocumentedSplits(p, piece + text, pieces);
  }

  /** Every literal character of a pattern is found in the text as often as in the pattern. */
  lemma {:induction false} LiteralsAreThere(p: string, text: string, pieces: seq<string>, c: char)
    requires DocumentedSplits(p, text, pieces) && c != MULTI_CHARACTER_WILDCARD && c != SINGLE_CHARACTER_WILDCARD
    ensures multiset(p)[c] <= multiset(text)[c]
  {
    if p != [] {
      var rest := Flatten(pieces[1..]);
      assert DocumentedPieceFits(p[0], pieces[0]);
      forall i | 0 <= i < |p[1..]| ensures DocumentedPieceFits(p[1..][i], pieces[1..][i]) {
        assert DocumentedPieceFits(p[i + 1], pieces[i + 1]);
      }
      LiteralsAreThere(p[1..], rest, pieces[1..], c);
      assert p == [p[0]] + p[1..] && text == pieces[0] + rest;
    }
  }

  /** Within one alphabet the code matches what the documentation says, and no more. */
  lemma MatchIsDocumented(p: string, s: string)
    requires Matches(p, s)
    ensures DocumentedMatches(p, s)
  {
    var pieces :| Splits(p, s, pieces);
    assert DocumentedSplits(p, s, pieces);
  }

  /** ... and all of it, if the pattern has no `*`. */
  lemma NoStarIsDocumented(p: string, s: string)
    requires MULTI_CHARACTER_WILDCARD !in p
    ensures Matches(p, s) <==> DocumentedMatches(p, s)
  {
    if Matches(p, s) {
      MatchIsDocumented(p, s);
    }
    if pieces :| DocumentedSplits(p, s, pieces) {
      assert Splits(p, s, pieces);
    }
  }

  lemma {:induction false} NoStarLength(p: string, s: string)
    requires MULTI_CHARACTER_WILDCARD !in p && Matches(p, s)
    ensures |s| == |p|
  {
    if p == [] {
      EmptyPatternMatches(s);
    } else if s == [] {
      NonEmptyPatternNeedsSubject(p);
    } else {
      MatchesUnfold(p, s);
      NoStarLength(p[1..], s[1..]);
    }
  }

  /** What one pattern character may stand for: nothing for a `*`, q for a `?`, a literal for itself. */
  function Piece(c: char, q: char): string {
    if c == MULTI_CHARACTER_WILDCARD then [] else if c == SINGLE_CHARACTER_WILDCARD then [q] else [c]
  }

  /** A text that p is documented to match. */
  function Sample(p: string, q: char): string {
    if p == [] then [] else Piece(p[0], q) + Sample(p[1..], q)
  }

  lemma {:induction false} SampleIsDocumented(p: string, q: char)
    ensures DocumentedMatches(p, Sample(p, q))
  {
    if p == [] {
      assert DocumentedSplits(p, [], []);
    } else {
      SampleIsDocumented(p[1..], q);
      DocumentedCons(p, Piece(p[0], q), Sample(p[1..], q));
    }
  }

  lemma {:induction false} SampleLength(p: string, q: char)
    ensures |Sample(p, q)| <= |p|
    ensures |Sample(p, q)| == |p| <==> MULTI_CHARACTER_WILDCARD !in p
    ensures forall c :: c in Sample(p, q) ==> c in p || c == q
    ensures SINGLE_CHARACTER_WILDCARD in p ==> q in Sample(p, q)
  {
    if p != [] {
      SampleLength(p[1..], q);
      assert p == [p[0]] + p[1..];
    }
  }

  /** With `?` for itself, everything but the stars is there exactly as often as in the pattern. */
  lemma {:induction false} SampleKeeps(p: string, c: char)
    requires c != MULTI_CHARACTER_WILDCARD
    ensures multiset(Sample(p, SINGLE_CHARACTER_WILDCARD))[c] == multiset(p)[c]
  {
    if p != [] {
      SampleKeeps(p[1..], c);
      PieceKeeps(p[0], c);
      assert p == [p[0]] + p[1..];
      assert multiset(p) == multiset([p[0]]) + multiset(p[1..]);
    }
  }

  lemma PieceKeeps(x: char, c: char)
    requires c != MULTI_CHARACTER_WILDCARD
    ensures multiset(Piece(x, SINGLE_CHARACTER_WILDCARD))[c] == multiset([x])[c]
  {
  }

  lemma {:induction false} SampleHigh(p: string)
    ensures High(Sample(p, SINGLE_CHARACTER_WILDCARD)) == High(p)
  {
    if p != [] {
      SampleHigh(p[1..]);
      var first := Piece(p[0], SINGLE_CHARACTER_WILDCARD);
      HighOfConcat(first, Sample(p[1..], SINGLE_CHARACTER_WILDCARD));
      assert first != [] ==> first[1..] == [];
    }
  }

  // ---------------------------------------------------------------------------
  // Characters outside ASCII

  /** The number of characters outside ASCII. */
  function High(s: string): nat {
    if s == [] then 0 else (if s[0] as int < 0x80 then 0 else 1) + High(s[1..])
  }

  lemma {:induction false} HighOfConcat(a: string, b: string)
    ensures High(a + b) == High(a) + High(b)
  {
    if a == [] {
      assert a + b == b;
    } else {
      assert (a + b)[1..] == a[1..] + b;
      HighOfConcat(a[1..], b);
    }
  }

  lemma AsciiTail(s: string)
    requires s != []
    ensures Ascii(s) <==> s[0] as int < 0x80 && Ascii(s[1..])
  {
    assert forall i :: 0 <= i < |s[1..]| ==> s[1..][i] == s[i + 1];
    assert forall i :: 0 < i < |s| ==> s[i] == s[1..][i - 1];
  }

  lemma {:induction false} HighIffNotAscii(s: string)
    ensures High(s) == 0 <==> Ascii(s)
  {
    if s != [] {
      HighIffNotAscii(s[1..]);
      AsciiTail(s);
    }
  }

  ghost predicate Latin1(text: string) {
    forall i :: 0 <= i < |text| ==> text[i] as int < 0x100
  }

  /** Each of the first 128 characters outside ASCII takes two bytes, both outside ASCII. */
  lemma {:induction false} HighBytes(text: string)
    requires Latin1(text)
    ensures High(Bytes(text)) == 2 * High(text)
  {
    if text != [] {
      assert forall i :: 0 <= i < |text[1..]| ==> text[1..][i] == text[i + 1];
      HighBytes(text[1..]);
      HighOfCharacter(text[0]);
      HighOfConcat(Utf8(text[0]), Bytes(text[1..]));
    }
  }

  lemma HighOfCharacter(c: char)
    requires c as int < 0x100
    ensures High(Utf8(c)) == if c as int < 0x80 then 0 else 2
    ensures c as int >= 0x80 ==> |Utf8(c)| == 2 && Utf8(c)[0] as int >= 0x80 && Utf8(c)[1] as int >= 0x80
  {
    var u := Utf8(c);
    assert High([u[0]]) == if c as int < 0x80 then 0 else 1 by {
      assert [u[0]][1..] == [];
    }
    if c as int >= 0x80 {
      assert u == [u[0]] + [u[1]];
      assert [u[1]][1..] == [];
      HighOfConcat([u[0]], [u[1]]);
    }
  }

  lemma {:induction false} BytesAreBytes(text: string)
    ensures Latin1(Bytes(text))
  {
    if text != [] {
      BytesAreBytes(text[1..]);
      var u, rest := Utf8(text[0]), Bytes(text[1..]);
      forall i | 0 <= i < |u + rest| ensures (u + rest)[i] as int < 0x100 {
        if i < |u| {
          assert (u + rest)[i] == u[i] && u[i] as int < 0x100;
        } else {
          assert (u + rest)[i] == rest[i - |u|];
        }
      }
      assert Bytes(text) == u + rest;
    }
  }

  /** p matches s with its character j changed into x. */
  ghost predicate MatchesWith(p: string, s: string, j: nat, x: char) {
    j < |s| && Matches(p, s[j := x])
  }

  /** A subject with more bytes outside ASCII than the pattern has such characters leaves one of them to a
      wildcard, and then any other byte would do in its place. */
  lemma {:induction false} FreeByte(p: string, s: string) returns (j: nat)
    requires Matches(p, s) && High(s) > High(p)
    ensures j < |s| && s[j] as int >= 0x80
    ensures forall x :: MatchesWith(p, s, j, x)
  {
    if p == [] {
      EmptyPatternMatches(s);
      assert false;
    }
    MatchesUnfold(p, s);
    if s[0] as int >= 0x80 && p[0] != s[0] {
      j := 0;
      forall x ensures MatchesWith(p, s, j, x) {
        assert s[0 := x][1..] == s[1..];
        MatchesUnfold(p, s[0 := x]);
      }
    } else {
      var rest := if Matches(p[1..], s[1..]) then p[1..] else p;
      var k := FreeByte(rest, s[1..]);
      j := k + 1;
      forall x ensures MatchesWith(p, s, j, x) {
        assert MatchesWith(rest, s[1..], k, x);
        assert s[j := x][1..] == s[1..][k := x];
        MatchesUnfold(p, s[j := x]);
      }
    }
  }

  /** A different character outside ASCII that shares with c every byte but the given one. */
  function Neighbour(c: char, second: bool): (d: char)
    requires 0x80 <= c as int < 0x100
    ensures d != c && 0x80 <= d as int < 0x100
    ensures Utf8(d)[if second then 0 else 1] == Utf8(c)[if second then 0 else 1]
  {
    var n := c as int;
    if second then (if n % 0x40 == 0 then n + 1 else n - 1) as char
    else (if n < 0xC0 then n + 0x40 else n - 0x40) as char
  }

  lemma ChangeCharacter(c: char, j: nat) returns (d: char, x: char)
    requires c as int < 0x100 && j < |Utf8(c)| && Utf8(c)[j] as int >= 0x80
    ensures c as int >= 0x80 && d != c && Utf8(d) == Utf8(c)[j := x]
  {
    HighOfCharacter(c);
    d := Neighbour(c, j == 1);
    x := Utf8(d)[j];
    HighOfCharacter(d);
  }

  /** Any byte of a character outside ASCII can be changed so that the text has another such character there. */
  lemma {:induction false} ChangeByte(text: string, j: nat) returns (k: nat, d: char, x: char)
    requires Latin1(text) && j < |Bytes(text)| && Bytes(text)[j] as int >= 0x80
    ensures k < |text| && text[k] as int >= 0x80 && d != text[k]
    ensures Bytes(text[k := d]) == Bytes(text)[j := x]
  {
    var u, rest := Utf8(text[0]), text[1..];
    if j < |u| {
      k := 0;
      d, x := ChangeCharacter(text[0], j);
      assert text[0 := d][1..] == rest;
      assert (u + Bytes(rest))[j := x] == u[j := x] + Bytes(rest);
    } else {
      var i;
      assert forall i :: 0 <= i < |rest| ==> rest[i] == text[i + 1];
      i, d, x := ChangeByte(rest, j - |u|);
      k := i + 1;
      assert text[k := d][1..] == rest[i := d];
      assert Bytes(text) == u + Bytes(rest);
      assert (u + Bytes(rest))[j := x] == u + Bytes(rest)[j - |u| := x];
    }
  }

  // ---------------------------------------------------------------------------
  // Where documentation and code agree

  /** A text on which they differ. */
  ghost predicate Differ(p: string, text: string) {
    DocumentedMatches(p, text) != CodeMatches(p, text)
  }

  /** A `*` of an ASCII pattern may stand for nothing in the documentation only. */
  lemma StarDiffers(p: string) returns (text: string)
    requires Ascii(p) && MULTI_CHARACTER_WILDCARD in p
    ensures Ascii(text) && Differ(p, text)
  {
    text := Sample(p, SINGLE_CHARACTER_WILDCARD);
    SampleIsDocumented(p, SINGLE_CHARACTER_WILDCARD);
    SampleLength(p, SINGLE_CHARACTER_WILDCARD);
    SampleHigh(p);
    HighIffNotAscii(p);
    HighIffNotAscii(text);
    BytesLength(text);
    if CodeMatches(p, text) {
      MatchLength(p, Bytes(text));
    }
  }

  const E_ACUTE: char := '\U{00E9}'

  /** A `?` stands for one character in the documentation and for one byte in the code. */
  lemma QuestionMarkDiffers(p: string) returns (text: string)
    requires MULTI_CHARACTER_WILDCARD !in p && SINGLE_CHARACTER_WILDCARD in p
    ensures Differ(p, text)
  {
    text := Sample(p, E_ACUTE);
    SampleIsDocumented(p, E_ACUTE);
    SampleLength(p, E_ACUTE);
    assert !Ascii(text) by {
      var i :| 0 <= i < |text| && text[i] == E_ACUTE;
    }
    BytesLength(text);
    if CodeMatches(p, text) {
      NoStarLength(p, Bytes(text));
    }
  }

  /** A character outside ASCII is compared with single bytes. */
  lemma HighDiffers(p: string) returns (text: string)
    requires !Ascii(p)
    ensures Differ(p, text)
  {
    text := Sample(p, SINGLE_CHARACTER_WILDCARD);
    SampleIsDocumented(p, SINGLE_CHARACTER_WILDCARD);
    SampleLength(p, SINGLE_CHARACTER_WILDCARD);
    SampleHigh(p);
    HighIffNotAscii(p);
    if CodeMatches(p, text) {
      BytesAreBytes(text);
      MatchedPatternIsLatin1(p, Bytes(text));
      forall i | 0 <= i < |text| ensures text[i] as int < 0x100 {
        assert text[i] in text;
      }
      HighBytes(text);
      var j := FreeByte(p, Bytes(text));
      var k, d, x := ChangeByte(text, j);
      assert MatchesWith(p, Bytes(text), j, x);
      OneLess(p, text, k, d);
      text := text[k := d];
    }
  }

  lemma MatchedPatternIsLatin1(p: string, s: string)
    requires Matches(p, s) && Latin1(s)
    ensures forall c :: c in p ==> c as int < 0x100
  {
    MatchIsDocumented(p, s);
    var pieces :| DocumentedSplits(p, s, pieces);
    forall c | c in p ensures c as int < 0x100 {
      if c != MULTI_CHARACTER_WILDCARD && c != SINGLE_CHARACTER_WILDCARD {
        LiteralsAreThere(p, s, pieces, c);
        assert multiset(p)[c] > 0;
        assert c in multiset(s);
      }
    }
  }

  /** The sample has no character outside ASCII to spare. */
  lemma OneLess(p: string, text: string, k: nat, d: char)
    requires text == Sample(p, SINGLE_CHARACTER_WILDCARD) && k < |text| && text[k] as int >= 0x80 && d != text[k]
    ensures !DocumentedMatches(p, text[k := d])
  {
    var c := text[k];
    SampleKeeps(p, c);
    var changed := text[k := d];
    assert multiset(changed)[c] == multiset(text)[c] - 1;
    if pieces :| DocumentedSplits(p, changed, pieces) {
      LiteralsAreThere(p, changed, pieces, c);
    }
  }

  /** A literal ASCII pattern means itself to both. */
  lemma LiteralAgrees(p: string, text: string)
    requires Ascii(p) && Literal(p)
    ensures !Differ(p, text)
  {
    assert MULTI_CHARACTER_WILDCARD !in p;
    NoStarIsDocumented(p, text);
    LiteralMatches(p, text);
    LiteralMatches(p, Bytes(text));
    BytesLength(p);
    BytesSeparate(p, text);
  }

  /** Documentation and code agree on a pattern, for every text, exactly when it is ASCII without wildcards. */
  lemma AgreeIff(p: string)
    ensures (forall text :: DocumentedMatches(p, text) <==> CodeMatches(p, text)) <==> Ascii(p) && Literal(p)
  {
    if Ascii(p) && Literal(p) {
      forall text ensures DocumentedMatches(p, text) <==> CodeMatches(p, text) {
        LiteralAgrees(p, text);
      }
    } else {
      var text;
      if !Ascii(p) {
        text := HighDiffers(p);
      } else if MULTI_CHARACTER_WILDCARD in p {
        text := StarDiffers(p);
      } else {
        assert SINGLE_CHARACTER_WILDCARD in p;
        text := QuestionMarkDiffers(p);
      }
      assert Differ(p, text);
    }
  }

  /** On ASCII texts they agree exactly when the pattern has no `*`, or no chance because it is not ASCII itself. */
  lemma AgreeOnAsciiIff(p: string)
    ensures (forall text :: Ascii(text) ==> (DocumentedMatches(p, text) <==> CodeMatches(p, text))) <==>
            MULTI_CHARACTER_WILDCARD !in p || !Ascii(p)
  {
    if Ascii(p) && MULTI_CHARACTER_WILDCARD in p {
      var text := StarDiffers(p);
      assert Differ(p, text);
    } else {
      forall text | Ascii(text) ensures DocumentedMatches(p, text) <==> CodeMatches(p, text) {
        BytesLength(text);
        if MULTI_CHARACTER_WILDCARD !in p {
          NoStarIsDocumented(p, text);
        } else {
          NothingInAscii(p, text);
        }
      }
    }
  }

  lemma NothingInAscii(p: string, text: string)
    requires !Ascii(p) && Ascii(text)
    ensures !DocumentedMatches(p, text) && !Matches(p, text)
  {
    var i :| 0 <= i < |p| && p[i] as int >= 0x80;
    if pieces :| DocumentedSplits(p, text, pieces) {
      LiteralsAreThere(p, text, pieces, p[i]);
      assert multiset(p)[p[i]] > 0;
      assert p[i] in multiset(text);
    }
    if Matches(p, text) {
      MatchIsDocumented(p, text);
    }
  }

  // ---------------------------------------------------------------------------
  // Witnesses

  /** "foo*" is documented to match "foo", and does not. */
  lemma StarNeedsACharacter()
    ensures DocumentedMatches("foo*", "foo") && !CodeMatches("foo*", "foo")
  {
    var p := "foo*";
    SampleIsDocumented(p, 'x');
    assert p[1..] == "oo*" && p[1..][1..] == "o*" && p[1..][1..][1..] == "*" && p[1..][1..][1..][1..] == "";
    assert Sample(p, 'x') == "foo";
    BytesLength("foo");
    if Matches(p, "foo") {
      MatchLength(p, "foo");
    }
  }

  /** "foo?" is documented to match "foo" and one more character, and does not match "foo" and an accented e. */
  lemma QuestionMarkNeedsOneByte()
    ensures DocumentedMatches("foo?", "foo" + [E_ACUTE]) && !CodeMatches("foo?", "foo" + [E_ACUTE])
  {
    var p, text := "foo?", "foo" + [E_ACUTE];
    SampleIsDocumented(p, E_ACUTE);
    assert p[1..] == "oo?" && p[1..][1..] == "o?" && p[1..][1..][1..] == "?" && p[1..][1..][1..][1..] == "";
    assert Sample(p, E_ACUTE) == text;
    assert text[3] == E_ACUTE;
    BytesLength(text);
    if CodeMatches(p, text) {
      NoStarLength(p, Bytes(text));
    }
  }
}
