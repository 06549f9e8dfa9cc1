/** UTF-8 as RFC 3629 section 4 spells it out, and where a string of it may be cut. */
module TailwindUtf8 {
  import opened Wrappers
  import opened TailwindLex
  import opened TailwindSpec
  import opened TailwindSources

  /** The bytes after the first of a character. */
  predicate Continuation(b: Byte) {
    0x80 <= b <= 0xBF
  }

  predicate TailsAt(css: Bytes, pos: nat, n: nat) {
    pos + n <= |css| && forall i :: pos <= i < pos + n ==> Continuation(css[i])
  }

  /** The length of the character at `pos`, or 0 when there is none. */
  function CharLength(css: Bytes, pos: nat): (n: nat)
    requires pos < |css|
    ensures n <= 4 && pos + n <= |css|
    ensures n > 1 ==> !Ascii(css[pos]) && TailsAt(css, pos + 1, n - 1)
    ensures n > 0 ==> !Continuation(css[pos])
    ensures n == 1 ==> Ascii(css[pos])
  {
    var b := css[pos];
    if b <= 0x7F then 1
    else if 0xC2 <= b <= 0xDF && TailsAt(css, pos + 1, 1) then 2
    else if 0xE0 <= b <= 0xEF && TailsAt(css, pos + 1, 2) && (b == 0xE0 ==> css[pos + 1] >= 0xA0)
            && (b == 0xED ==> css[pos + 1] <= 0x9F) then 3
    else if 0xF0 <= b <= 0xF4 && TailsAt(css, pos + 1, 3) && (b == 0xF0 ==> css[pos + 1] >= 0x90)
            && (b == 0xF4 ==> css[pos + 1] <= 0x8F) then 4
    else 0
  }

  predicate CharsFrom(css: Bytes, pos: nat)
    decreases |css| - pos
  {
    pos == |css| || (pos < |css| && CharLength(css, pos) > 0 && CharsFrom(css, pos + CharLength(css, pos)))
  }

  predicate ValidUtf8(css: Bytes) {
    CharsFrom(css, 0)
  }

  /** Where a string may be cut. */
  predicate Boundary(css: Bytes, pos: nat) {
    pos == 0 || pos == |css| || (pos < |css| && !Continuation(css[pos]))
  }

  /** A string slice: cutting anywhere but between characters is a panic. */
  function StrSlice(css: Bytes, lo: nat, hi: nat): Bytes
    requires lo <= hi <= |css| && Boundary(css, lo) && Boundary(css, hi)
  {
    css[lo..hi]
  }

  lemma {:induction false} AfterAsciiFrom(css: Bytes, from: nat, i: nat)
    requires CharsFrom(css, from) && from <= i < |css| && Ascii(css[i])
    ensures Boundary(css, i + 1)
    decreases |css| - from
  {
    var next := from + CharLength(css, from);
    if i >= next {
      AfterAsciiFrom(css, next, i);
    } else {
      assert i == from && next == i + 1;
    }
  }

  /** A string may be cut after every ASCII byte, also when the bytes around it are not ASCII. */
  lemma AfterAscii(css: Bytes, i: nat)
    requires ValidUtf8(css) && i < |css| && Ascii(css[i])
    ensures Boundary(css, i + 1)
  {
    AfterAsciiFrom(css, 0, i);
  }

  lemma StartsOnBoundary(css: Bytes)
    requires ValidUtf8(css)
    ensures Start(css).pos <= |css| && Boundary(css, Start(css).pos)
  {
    if BOM <= css {
      assert css[0] == BOM[0] && css[1] == BOM[1] && css[2] == BOM[2];
      assert CharLength(css, 0) == 3 && CharsFrom(css, 3);
    }
  }

  /** A backslash in front of a byte of a longer character moves comment and string scanning off the character
      boundaries, yet both end behind an ASCII byte, and an escape outside them must hide an ASCII byte. */
  lemma LexemeEndsOnBoundary(css: Bytes, pos: nat)
    requires ValidUtf8(css) && pos < |css|
    ensures match LexAt(css, pos)
            case Comment(e) => Boundary(css, e)
            case Text(e) => Boundary(css, e)
            case Escape(e) => SkipEscape(css, pos).Some? ==> Boundary(css, e)
            case _ => true
  {
    match LexAt(css, pos)
    case Comment(e) => AfterAscii(css, e - 1);
    case Text(e) => AfterAscii(css, e - 1);
    case Escape(e) =>
      if SkipEscape(css, pos).Some? && e < |css| {
        AfterAscii(css, pos + 1);
      }
    case _ =>
  }

  /** The inside of an accepted string literal is cut between characters too. */
  lemma LiteralOnBoundary(css: Bytes, from: nat, end: nat) returns (lo: nat, hi: nat)
    requires ValidUtf8(css) && from <= end <= |css| && QuotedOnly(Trim(css[from..end])).Some?
    ensures from <= lo && lo + 1 < hi - 1 && hi <= end && Trim(css[from..end]) == css[lo..hi]
    ensures Boundary(css, lo + 1) && Boundary(css, hi - 1)
    ensures QuotedOnly(css[lo..hi]) == Some(StrSlice(css, lo + 1, hi - 1))
  {
    hide Trim, ValidUtf8;
    lo, hi := TrimmedAt(css, from, end);
    assert css[lo] == css[lo..hi][0] && css[hi - 1] == css[lo..hi][hi - lo - 1];
    AfterAscii(css, lo);
    assert css[lo..hi][1..hi - lo - 1] == css[lo + 1..hi - 1];
  }

  lemma AtRuleKeepsBoundary(css: Bytes, st: State)
    requires ValidUtf8(css) && st.pos < |css| && css[st.pos] == AT && AtRule(css, st).Some?
    ensures Boundary(css, AtRule(css, st).value.pos)
  {
    hide Statement, CharsFrom, BlankAt, AllowedRule, MiscasedRule;
    AfterAscii(css, AtRule(css, st).value.pos - 1);
  }

  /** Every round starts between characters. */
  lemma RoundKeepsBoundary(css: Bytes, st: State)
    requires ValidUtf8(css) && st.pos < |css| && Boundary(css, st.pos) && Round(css, st).Some?
    ensures Boundary(css, Round(css, st).value.pos)
  {
    hide AtRule, ValidUtf8, SourceToken;
    LexemeEndsOnBoundary(css, st.pos);
    if LexAt(css, st.pos) == Plain {
      if css[st.pos] == AT && st.custom.None? {
        AtRuleKeepsBoundary(css, st);
      } else if Round(css, st).value.pos > st.pos {
        AfterAscii(css, Round(css, st).value.pos - 1);
      }
    }
  }

  lemma {:induction false} AlwaysOnBoundary(css: Bytes, n: nat)
    requires ValidUtf8(css) && AfterRounds(css, n).Some?
    ensures AfterRounds(css, n).value.pos <= |css| && Boundary(css, AfterRounds(css, n).value.pos)
  {
    hide Round, ValidUtf8;
    if n == 0 {
      StartsOnBoundary(css);
    } else {
      AlwaysOnBoundary(css, n - 1);
      RoundKeepsBoundary(css, AfterRounds(css, n - 1).value);
    }
  }

  // ---------- valid is encoded ----------

  /** A Unicode scalar value: no surrogate. */
  type Scalar = c: int | 0 <= c < 0x110000 && !(0xD800 <= c < 0xE000)

  /** RFC 3629 section 3. */
  function Encoded(c: Scalar): Bytes {
    if c < 0x80 then [c]
    else if c < 0x800 then [0xC0 + c / 64, 0x80 + c % 64]
    else if c < 0x10000 then [0xE0 + c / 4096, 0x80 + c / 64 % 64, 0x80 + c % 64]
    else [0xF0 + c / 262144, 0x80 + c / 4096 % 64, 0x80 + c / 64 % 64, 0x80 + c % 64]
  }

  function EncodedAll(cs: seq<Scalar>): Bytes {
    if cs == [] then [] else Encoded(cs[0]) + EncodedAll(cs[1..])
  }

  /** The character that a valid encoding at `pos` encodes. */
  function CharAt(css: Bytes, pos: nat): (c: Scalar)
    requires pos < |css| && CharLength(css, pos) > 0
  {
    var n := CharLength(css, pos);
    if n == 1 then css[pos]
    else if n == 2 then
      var a: int, b: int := css[pos], css[pos + 1];
      (a - 0xC0) * 64 + (b - 0x80)
    else if n == 3 then
      var a: int, b: int, c: int := css[pos], css[pos + 1], css[pos + 2];
      (a - 0xE0) * 4096 + (b - 0x80) * 64 + (c - 0x80)
    else
      var a: int, b: int, c: int, d: int := css[pos], css[pos + 1], css[pos + 2], css[pos + 3];
      (a - 0xF0) * 262144 + (b - 0x80) * 4096 + (c - 0x80) * 64 + (d - 0x80)
  }

  lemma Digits64(x: int, y: int)
    requires 0 <= y < 64
    ensures (x * 64 + y) / 64 == x && (x * 64 + y) % 64 == y
  {
  }

  lemma Split64(c: nat)
    ensures c / 64 / 64 == c / 4096 && c / 4096 / 64 == c / 262144
    ensures c == c / 64 * 64 + c % 64 && c / 64 == c / 4096 * 64 + c / 64 % 64
  {
  }

  lemma TwoAreEncoded(a: Byte, b: Byte, c: Scalar)
    requires 0xC2 <= a <= 0xDF && Continuation(b) && c == ((a as int) - 0xC0) * 64 + ((b as int) - 0x80)
    ensures [a, b] == Encoded(c)
  {
    Digits64((a as int) - 0xC0, (b as int) - 0x80);
  }

  lemma ThreeAreEncoded(a: Byte, b: Byte, d: Byte, c: Scalar)
    requires 0xE0 <= a <= 0xEF && Continuation(b) && Continuation(d) && (a == 0xE0 ==> b >= 0xA0)
    requires c == ((a as int) - 0xE0) * 4096 + ((b as int) - 0x80) * 64 + ((d as int) - 0x80)
    ensures [a, b, d] == Encoded(c)
  {
    Split64(c);
    Digits64(((a as int) - 0xE0) * 64 + ((b as int) - 0x80), (d as int) - 0x80);
    Digits64((a as int) - 0xE0, (b as int) - 0x80);
  }

  lemma FourAreEncoded(a: Byte, b: Byte, d: Byte, e: Byte, c: Scalar)
    requires 0xF0 <= a <= 0xF4 && Continuation(b) && Continuation(d) && Continuation(e) && (a == 0xF0 ==> b >= 0x90)
    requires c == ((a as int) - 0xF0) * 262144 + ((b as int) - 0x80) * 4096 + ((d as int) - 0x80) * 64 + ((e as int) - 0x80)
    ensures [a, b, d, e] == Encoded(c)
  {
    Split64(c);
    Digits64(((a as int) - 0xF0) * 4096 + ((b as int) - 0x80) * 64 + ((d as int) - 0x80), (e as int) - 0x80);
    Digits64(((a as int) - 0xF0) * 64 + ((b as int) - 0x80), (d as int) - 0x80);
    Digits64((a as int) - 0xF0, (b as int) - 0x80);
  }

  lemma CharIsEncoded(css: Bytes, pos: nat)
    requires pos < |css| && CharLength(css, pos) > 0
    ensures css[pos..pos + CharLength(css, pos)] == Encoded(CharAt(css, pos))
  {
    hide Encoded;
    var n, c := CharLength(css, pos), CharAt(css, pos);
    if n == 1 {
      OneIsEncoded(css[pos]);
    } else if n == 2 {
      TwoAreEncoded(css[pos], css[pos + 1], c);
    } else if n == 3 {
      ThreeAreEncoded(css[pos], css[pos + 1], css[pos + 2], c);
    } else {
      FourAreEncoded(css[pos], css[pos + 1], css[pos + 2], css[pos + 3], c);
    }
  }

  lemma OneIsEncoded(b: Byte)
    requires b < 0x80
    ensures [b] == Encoded(b)
  {
  }

  lemma EncodedRanges(c: Scalar)
    ensures var e := Encoded(c);
            && 1 <= |e| <= 4 && (forall i :: 1 <= i < |e| ==> Continuation(e[i]))
            && (|e| == 1 ==> e[0] <= 0x7F)
            && (|e| == 2 ==> 0xC2 <= e[0] <= 0xDF)
            && (|e| == 3 ==> 0xE0 <= e[0] <= 0xEF && (e[0] == 0xE0 ==> e[1] >= 0xA0) && (e[0] == 0xED ==> e[1] <= 0x9F))
            && (|e| == 4 ==> 0xF0 <= e[0] <= 0xF4 && (e[0] == 0xF0 ==> e[1] >= 0x90) && (e[0] == 0xF4 ==> e[1] <= 0x8F))
  {
  }

  lemma EncodedIsChar(css: Bytes, pos: nat, c: Scalar)
    requires pos + |Encoded(c)| <= |css| && css[pos..pos + |Encoded(c)|] == Encoded(c)
    ensures pos < |css| && CharLength(css, pos) == |Encoded(c)|
  {
    hide Encoded;
    EncodedRanges(c);
    var e := Encoded(c);
    assert forall i :: pos <= i < pos + |e| ==> css[i] == e[i - pos];
    if |e| > 1 { assert css[pos + 1] == e[1]; }
  }

  /** The bytes that are valid UTF-8 are exactly the encodings of sequences of scalar values. */
  lemma ValidIsEncoded(css: Bytes)
    ensures ValidUtf8(css) <==> exists cs :: css == EncodedAll(cs)
  {
    assert css[0..] == css;
    if ValidUtf8(css) {
      var cs := CharsEncode(css, 0);
    }
    if cs :| css == EncodedAll(cs) {
      EncodedChars(css, 0, cs);
    }
  }

  lemma {:induction false} CharsEncode(css: Bytes, pos: nat) returns (cs: seq<Scalar>)
    requires CharsFrom(css, pos)
    ensures css[pos..] == EncodedAll(cs)
    decreases |css| - pos
  {
    hide CharLength, CharAt, Encoded;
    if pos == |css| {
      cs := [];
    } else {
      var n := CharLength(css, pos);
      CharIsEncoded(css, pos);
      var rest := CharsEncode(css, pos + n);
      cs := [CharAt(css, pos)] + rest;
      assert cs[1..] == rest;
      assert css[pos..] == css[pos..pos + n] + css[pos + n..];
    }
  }

  lemma {:induction false} EncodedChars(css: Bytes, pos: nat, cs: seq<Scalar>)
    requires pos <= |css| && css[pos..] == EncodedAll(cs)
    ensures CharsFrom(css, pos)
    decreases |cs|
  {
    hide CharLength, Encoded;
    if cs != [] {
      var n := |Encoded(cs[0])|;
      assert EncodedAll(cs)[..n] == Encoded(cs[0]) && EncodedAll(cs)[n..] == EncodedAll(cs[1..]);
      assert css[pos..][..n] == css[pos..pos + n] && css[pos..][n..] == css[pos + n..];
      EncodedIsChar(css, pos, cs[0]);
      EncodedChars(css, pos + n, cs[1..]);
    }
  }
}
