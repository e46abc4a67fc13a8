/**
 Patterns are walked character by character, subjects byte by byte. For a pattern without
 wildcards this decides exactly which texts match themselves.
 */
module Encoding {
  import opened Patterns

  /** The UTF-8 bytes of a character, each as the character of the same code (section 3 of RFC 3629). */
  function Utf8(c: char): (bytes: string)
    ensures 1 <= |bytes| <= 4
    ensures |bytes| == 1 <==> c as int < 0x80
    ensures |bytes| == 1 ==> bytes == [c]
    ensures forall i :: 0 <= i < |bytes| ==> bytes[i] as int < 0x100
  {
    var n := c as int;
    if n < 0x80 then [c]
    else if n < 0x800 then [(0xC0 + n / 0x40) as char, Continuation(n)]
    else if n < 0x10000 then [(0xE0 + n / 0x1000) as char, Continuation(n / 0x40), Continuation(n)]
    else [(0xF0 + n / 0x40000) as char, Continuation(n / 0x1000), Continuation(n / 0x40), Continuation(n)]
  }

  function Continuation(n: nat): char {
    (0x80 + n % 0x40) as char
  }

  /** The first byte tells how many follow, and together they tell the character. */
  lemma Utf8Separates(c: char, x: string, d: char, y: string)
    requires Utf8(c) + x == Utf8(d) + y
    ensures c == d && x == y
  {
    assert (Utf8(c) + x)[0] == Utf8(c)[0] && (Utf8(d) + y)[0] == Utf8(d)[0];
    assert |Utf8(c)| == |Utf8(d)|;
    assert Utf8(c) == (Utf8(c) + x)[..|Utf8(c)|] == (Utf8(d) + y)[..|Utf8(d)|] == Utf8(d);
    CodeOfUtf8(c);
    CodeOfUtf8(d);
    assert x == (Utf8(c) + x)[|Utf8(c)|..];
    assert y == (Utf8(d) + y)[|Utf8(d)|..];
  }

  /** The character code that the bytes of one character spell. */
  function Code(bytes: string): int {
    if |bytes| == 1 then bytes[0] as int
    else if |bytes| == 2 then (bytes[0] as int - 0xC0) * 0x40 + (bytes[1] as int - 0x80)
    else if |bytes| == 3 then
      (bytes[0] as int - 0xE0) * 0x1000 + (bytes[1] as int - 0x80) * 0x40 + (bytes[2] as int - 0x80)
    else if |bytes| == 4 then
      (bytes[0] as int - 0xF0) * 0x40000 + (bytes[1] as int - 0x80) * 0x1000
      + (bytes[2] as int - 0x80) * 0x40 + (bytes[3] as int - 0x80)
    else 0
  }

  lemma CodeOfUtf8(c: char)
    ensures Code(Utf8(c)) == c as int
  {
    var n := c as int;
    assert n / 0x40 / 0x40 == n / 0x1000 && n / 0x1000 / 0x40 == n / 0x40000;
  }

  /** The subject the matcher sees for a text. */
  function Bytes(text: string): string {
    if text == [] then [] else Utf8(text[0]) + Bytes(text[1..])
  }

  ghost predicate Ascii(text: string) {
    forall i :: 0 <= i < |text| ==> text[i] as int < 0x80
  }

  ghost predicate Literal(p: string) {
    forall i :: 0 <= i < |p| ==> p[i] != MULTI_CHARACTER_WILDCARD && p[i] != SINGLE_CHARACTER_WILDCARD
  }

  /** A pattern without wildcards matches itself and nothing else. */
  lemma {:induction false} LiteralMatches(p: string, s: string)
    requires Literal(p)
    ensures Matches(p, s) <==> p == s
  {
    if p == [] {
      EmptyPatternMatches(s);
    } else if s == [] {
      NonEmptyPatternNeedsSubject(p);
    } else {
      MatchesUnfold(p, s);
      LiteralMatches(p[1..], s[1..]);
      assert p == [p[0]] + p[1..] && s == [s[0]] + s[1..];
    }
  }

  lemma {:induction false} BytesLength(text: string)
    ensures |Bytes(text)| >= |text|
    ensures |Bytes(text)| == |text| <==> Ascii(text)
    ensures Ascii(text) ==> Bytes(text) == text
  {
    if text != [] {
      BytesLength(text[1..]);
      assert text == [text[0]] + text[1..];
      if Ascii(text[1..]) && text[0] as int < 0x80 {
        forall i | 0 <= i < |text| ensures text[i] as int < 0x80 {
          assert i > 0 ==> text[i] == text[1..][i - 1];
        }
      }
    }
  }

  /** A literal pattern matches the topic of the same name exactly when that name is ASCII. */
  lemma LiteralMatchesItselfIffAscii(p: string)
    requires Literal(p)
    ensures Matches(p, Bytes(p)) <==> Ascii(p)
  {
    LiteralMatches(p, Bytes(p));
    BytesLength(p);
  }

  /** The examples of section 7 of RFC 3629: one, two, three and four bytes. */
  lemma Rfc3629Examples()
    ensures Utf8('A') == ['\U{0041}']
    ensures Utf8('\U{0391}') == ['\U{00CE}', '\U{0091}']
    ensures Utf8('\U{2262}') == ['\U{00E2}', '\U{0089}', '\U{00A2}']
    ensures Utf8('\U{233B4}') == ['\U{00F0}', '\U{00A3}', '\U{008E}', '\U{00B4}']
  {
  }

  /** Different texts are different subjects. */
  lemma {:induction false} BytesSeparate(a: string, b: string)
    ensures Bytes(a) == Bytes(b) <==> a == b
  {
    if a != [] && b != [] && Bytes(a) == Bytes(b) {
      Utf8Separates(a[0], Bytes(a[1..]), b[0], Bytes(b[1..]));
      BytesSeparate(a[1..], b[1..]);
      assert a == [a[0]] + a[1..] && b == [b[0]] + b[1..];
    }
  }
}
