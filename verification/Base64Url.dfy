/** The passkey client's base64url conversions (RFC 4648 section 5), built on the browser's `btoa` and `atob`, which
    are taken to be the encoding and decoding of RFC 4648 section 4. */
module Base64Url {
  import opened Wrappers

  type Byte = b: int | 0 <= b < 256
  type Bytes = seq<Byte>
  type Sextet = v: int | 0 <= v < 64

  // ---------- RFC 4648 section 4 ----------

  function Digit(v: Sextet): char {
    if v < 26 then 'A' + v as char
    else if v < 52 then 'a' + (v - 26) as char
    else if v < 62 then '0' + (v - 52) as char
    else if v == 62 then '+' else '/'
  }

  function Value(c: char): Option<Sextet> {
    if 'A' <= c <= 'Z' then Some(c as int - 65)
    else if 'a' <= c <= 'z' then Some(c as int - 71)
    else if '0' <= c <= '9' then Some(c as int + 4)
    else if c == '+' then Some(62)
    else if c == '/' then Some(63)
    else None
  }

  /** The digits of one group of at most three bytes. */
  function Digits(bytes: Bytes): seq<Sextet>
    requires 1 <= |bytes| <= 3
  {
    var a := bytes[0];
    if |bytes| == 1 then [a / 4, a % 4 * 16]
    else
      var b := bytes[1];
      if |bytes| == 2 then [a / 4, a % 4 * 16 + b / 16, b % 16 * 4]
      else [a / 4, a % 4 * 16 + b / 16, b % 16 * 4 + bytes[2] / 64, bytes[2] % 64]
  }

  /** The bytes of one group of two to four digits; left over bits are dropped. */
  function Undigits(v: seq<Sextet>): Bytes
    requires 2 <= |v| <= 4
  {
    var v0: int, v1: int := v[0], v[1];
    var a: Byte := v0 * 4 + v1 / 16;
    if |v| == 2 then [a]
    else
      var v2: int := v[2];
      var b: Byte := v1 % 16 * 16 + v2 / 4;
      if |v| == 3 then [a, b]
      else
        var v3: int := v[3];
        [a, b, v2 % 4 * 64 + v3]
  }

  function Spell(v: seq<Sextet>): string {
    seq(|v|, i requires 0 <= i < |v| => Digit(v[i]))
  }

  function Read(s: string): (r: Option<seq<Sextet>>)
    ensures r.Some? ==> |r.value| == |s|
  {
    if s == "" then Some([])
    else
      match Value(s[0])
      case None => None
      case Some(v) =>
        match Read(s[1..])
        case None => None
        case Some(rest) => Some([v] + rest)
  }

  function Pads(n: nat): string {
    seq(n, i => '=')
  }

  function Btoa(bytes: Bytes): string {
    if bytes == [] then ""
    else if |bytes| < 3 then Spell(Digits(bytes)) + Pads(3 - |bytes|)
    else Spell(Digits(bytes[..3])) + Btoa(bytes[3..])
  }

  /** One full group at a time; only the last may be padded. */
  function Atob(s: string): Option<Bytes> {
    if s == "" then Some([])
    else if |s| < 4 then None
    else if |s| == 4 && s[3] == '=' then
      match Read(if s[2] == '=' then s[..2] else s[..3])
      case None => None
      case Some(v) => Some(Undigits(v))
    else
      match Read(s[..4])
      case None => None
      case Some(v) =>
        match Atob(s[4..])
        case None => None
        case Some(rest) => Some(Undigits(v) + rest)
  }

  // ---------- the client's conversions ----------

  function Plain(c: char): char {
    if c == '-' then '+' else if c == '_' then '/' else c
  }

  function Safe(c: char): char {
    if c == '+' then '-' else if c == '/' then '_' else c
  }

  function Translate(s: string, f: char -> char): string {
    seq(|s|, i requires 0 <= i < |s| => f(s[i]))
  }

  function Missing(n: nat): nat {
    (4 - n % 4) % 4
  }

  /** Without the `=` at the end. */
  function Stripped(s: string): string {
    if s != "" && s[|s| - 1] == '=' then Stripped(s[..|s| - 1]) else s
  }

  function Encode(bytes: Bytes): string {
    Stripped(Translate(Btoa(bytes), Safe))
  }

  function Decode(s: string): Option<Bytes> {
    Atob(Translate(s, Plain) + Pads(Missing(|s|)))
  }

  /** `base64urlToBuffer`; `None` is the exception `atob` throws. */
  method Base64urlToBuffer(b64url: string) returns (buf: Option<array<Byte>>)
    ensures buf.Some? <==> Decode(b64url).Some?
    ensures buf.Some? ==> fresh(buf.value) && buf.value[..] == Decode(b64url).value
  {
    hide Atob, Plain;
    var s := Translate(b64url, Plain);
    while |s| % 4 != 0
      invariant s + Pads(Missing(|s|)) == Translate(b64url, Plain) + Pads(Missing(|b64url|))
      decreases Missing(|s|)
    {
      PadStep(s);
      s := s + "=";
    }
    assert s + Pads(0) == s;
    var binary := Atob(s);
    if binary.None? { return None; }
    var bytes := new Byte[|binary.value|];
    for i := 0 to |binary.value|
      invariant bytes[..i] == binary.value[..i]
    {
      bytes[i] := binary.value[i];
    }
    return Some(bytes);
  }

  lemma PadStep(s: string)
    requires |s| % 4 != 0
    ensures s + Pads(Missing(|s|)) == (s + "=") + Pads(Missing(|s + "="|))
    ensures Missing(|s + "="|) < Missing(|s|)
  {
    var n := Missing(|s|);
    assert Missing(|s + "="|) == n - 1;
    assert Pads(n) == "=" + Pads(n - 1);
  }

  /** `bufferToBase64url`. */
  method BufferToBase64url(buffer: array<Byte>) returns (s: string)
    ensures s == Encode(buffer[..])
  {
    var binary: Bytes := [];
    for i := 0 to buffer.Length
      invariant binary == buffer[..i]
    {
      binary := binary + [buffer[i]];
    }
    assert buffer[..buffer.Length] == buffer[..];
    s := Stripped(Translate(Btoa(binary), Safe));
  }

  // ---------- the alphabet and the padding ----------

  /** RFC 4648 section 5 without padding, written down directly. */
  function UrlSafe(bytes: Bytes): string {
    if bytes == [] then ""
    else if |bytes| <= 3 then SafeSpell(Digits(bytes))
    else SafeSpell(Digits(bytes[..3])) + UrlSafe(bytes[3..])
  }

  /** The digits of the URL and filename safe alphabet. */
  function SafeDigit(v: Sextet): char {
    if v < 26 then 'A' + v as char
    else if v < 52 then 'a' + (v - 26) as char
    else if v < 62 then '0' + (v - 52) as char
    else if v == 62 then '-' else '_'
  }

  function SafeSpell(v: seq<Sextet>): string {
    seq(|v|, i requires 0 <= i < |v| => SafeDigit(v[i]))
  }

  predicate InUrlAlphabet(c: char) {
    'A' <= c <= 'Z' || 'a' <= c <= 'z' || '0' <= c <= '9' || c == '-' || c == '_'
  }

  lemma DigitTranslates(v: Sextet)
    ensures Safe(Digit(v)) == SafeDigit(v) && Plain(SafeDigit(v)) == Digit(v)
  {
  }

  lemma SpellTranslates(v: seq<Sextet>)
    ensures Translate(Spell(v), Safe) == SafeSpell(v)
    ensures Translate(SafeSpell(v), Plain) == Spell(v)
  {
    hide Digit, SafeDigit, Safe, Plain;
    forall i | 0 <= i < |v|
      ensures Translate(Spell(v), Safe)[i] == SafeSpell(v)[i]
      ensures Translate(SafeSpell(v), Plain)[i] == Spell(v)[i]
    {
      DigitTranslates(v[i]);
    }
  }

  lemma TranslateConcat(a: string, b: string, f: char -> char)
    ensures Translate(a + b, f) == Translate(a, f) + Translate(b, f)
  {
  }

  lemma TranslatePads(n: nat)
    ensures Translate(Pads(n), Safe) == Pads(n)
  {
    assert Safe('=') == '=';
    assert forall i :: 0 <= i < n ==> Translate(Pads(n), Safe)[i] == Pads(n)[i];
  }

  /** How much padding the plain encoding ends in. */
  function PadCount(bytes: Bytes): nat {
    (3 - |bytes| % 3) % 3
  }

  lemma {:induction false} BtoaIsPadded(bytes: Bytes)
    ensures Translate(Btoa(bytes), Safe) == UrlSafe(bytes) + Pads(PadCount(bytes))
    ensures Btoa(bytes) == Translate(UrlSafe(bytes), Plain) + Pads(PadCount(bytes))
    decreases |bytes|
  {
    hide Digits, Digit, SafeDigit, Spell, SafeSpell, Translate, Pads, Safe, Plain, PadCount;
    PadCounts(bytes);
    if bytes == [] {
      PadsLength(0);
      NothingTranslates();
    } else if |bytes| < 3 {
      SpellTranslates(Digits(bytes));
      TranslateConcat(Spell(Digits(bytes)), Pads(3 - |bytes|), Safe);
      TranslatePads(3 - |bytes|);
    } else {
      var first, rest := Digits(bytes[..3]), bytes[3..];
      BtoaIsPadded(rest);
      SpellTranslates(first);
      TranslateConcat(Spell(first), Btoa(rest), Safe);
      TranslateConcat(SafeSpell(first), UrlSafe(rest), Plain);
      UrlSafeStep(bytes);
    }
  }

  lemma PadCounts(bytes: Bytes)
    ensures |bytes| < 3 ==> PadCount(bytes) == if bytes == [] then 0 else 3 - |bytes|
    ensures |bytes| >= 3 ==> PadCount(bytes[3..]) == PadCount(bytes)
  {
  }

  lemma UrlSafeStep(bytes: Bytes)
    requires |bytes| >= 3
    ensures UrlSafe(bytes) == SafeSpell(Digits(bytes[..3])) + UrlSafe(bytes[3..])
  {
    hide Digits, SafeSpell;
    if |bytes| == 3 {
      assert bytes[..3] == bytes && bytes[3..] == [];
      assert SafeSpell(Digits(bytes)) + "" == SafeSpell(Digits(bytes));
    }
  }

  /** Four characters for three bytes, and one more than its bytes for a shorter last group. */
  lemma {:induction false} UrlSafeLength(bytes: Bytes)
    ensures |UrlSafe(bytes)| == |bytes| + (|bytes| + 2) / 3
    ensures Missing(|UrlSafe(bytes)|) == PadCount(bytes)
    decreases |bytes|
  {
    hide Digits, SafeSpell, UrlSafe, Missing;
    GroupArithmetic(|bytes|);
    if |bytes| >= 3 {
      UrlSafeStep(bytes);
      UrlSafeLength(bytes[3..]);
      UndigitsDigits(bytes[..3]);
      SpellLength(Digits(bytes[..3]));
    } else {
      UrlSafeShort(bytes);
    }
  }

  lemma GroupArithmetic(n: nat)
    ensures Missing(n + (n + 2) / 3) == (3 - n % 3) % 3
    ensures n >= 3 ==> (n + 2) / 3 == 1 + (n - 1) / 3
  {
    var q, r := n / 3, n % 3;
    assert n + (n + 2) / 3 == 4 * q + (if r == 0 then 0 else r + 1);
  }

  lemma UrlSafeShort(bytes: Bytes)
    requires |bytes| < 3
    ensures |UrlSafe(bytes)| == if bytes == [] then 0 else |bytes| + 1
  {
    hide Digits;
    if bytes != [] { UndigitsDigits(bytes); }
  }

  lemma PadsLength(n: nat)
    ensures |Pads(n)| == n
  {
  }

  lemma SpellLength(v: seq<Sextet>)
    ensures |Spell(v)| == |SafeSpell(v)| == |v|
  {
  }

  lemma NothingTranslates()
    ensures Translate("", Safe) == "" && Translate("", Plain) == ""
  {
  }

  lemma {:induction false} StripPads(s: string, n: nat)
    requires s == "" || s[|s| - 1] != '='
    ensures Stripped(s + Pads(n)) == s
    decreases n
  {
    if n == 0 {
      assert s + Pads(n) == s;
    } else {
      assert (s + Pads(n))[..|s| + n - 1] == s + Pads(n - 1);
      StripPads(s, n - 1);
    }
  }

  lemma {:induction false} UrlSafeAlphabet(bytes: Bytes)
    ensures forall i :: 0 <= i < |UrlSafe(bytes)| ==> InUrlAlphabet(UrlSafe(bytes)[i])
    decreases |bytes|
  {
    hide Digits;
    if |bytes| > 3 {
      UrlSafeAlphabet(bytes[3..]);
    }
  }

  /** The encoding is RFC 4648 section 5 without padding, over its alphabet alone; what was stripped is exactly what
      the padding loop puts back. */
  lemma EncodeIsUrlSafe(bytes: Bytes)
    ensures Encode(bytes) == UrlSafe(bytes)
    ensures forall i :: 0 <= i < |Encode(bytes)| ==> InUrlAlphabet(Encode(bytes)[i])
    ensures Translate(Encode(bytes), Plain) + Pads(Missing(|Encode(bytes)|)) == Btoa(bytes)
  {
    hide Btoa, UrlSafe, Translate, Pads, PadCount, Missing;
    BtoaIsPadded(bytes);
    UrlSafeLength(bytes);
    UrlSafeAlphabet(bytes);
    StripPads(UrlSafe(bytes), PadCount(bytes));
  }

  // ---------- the round trip ----------

  lemma DigitValue(v: Sextet)
    ensures Value(Digit(v)) == Some(v) && Digit(v) != '='
  {
  }

  lemma {:induction false} ReadSpell(v: seq<Sextet>)
    ensures Read(Spell(v)) == Some(v)
    decreases |v|
  {
    hide Digit, Value;
    if v != [] {
      DigitValue(v[0]);
      assert Spell(v)[0] == Digit(v[0]);
      assert Spell(v)[1..] == Spell(v[1..]);
      ReadSpell(v[1..]);
      assert v == [v[0]] + v[1..];
    }
  }

  lemma UndigitsDigits(bytes: Bytes)
    requires 1 <= |bytes| <= 3
    ensures Undigits(Digits(bytes)) == bytes && |Digits(bytes)| == |bytes| + 1
  {
    var a: int := bytes[0];
    var b: int := if |bytes| > 1 then bytes[1] else 0;
    var c: int := if |bytes| > 2 then bytes[2] else 0;
    Shift16(a % 4, b / 16);
    Shift4(b % 16, c / 64);
    assert a == a / 4 * 4 + a % 4 && b == b / 16 * 16 + b % 16 && c == c / 64 * 64 + c % 64;
  }

  lemma Shift16(x: nat, y: nat)
    requires y < 16
    ensures (x * 16 + y) / 16 == x && (x * 16 + y) % 16 == y
  {
  }

  lemma Shift4(x: nat, y: nat)
    requires y < 4
    ensures (x * 4 + y) / 4 == x && (x * 4 + y) % 4 == y
  {
  }

  lemma {:induction false} AtobBtoa(bytes: Bytes)
    ensures Atob(Btoa(bytes)) == Some(bytes)
    decreases |bytes|
  {
    hide Digits, Undigits, Digit, Value, Read;
    if bytes == [] {
    } else if |bytes| < 3 {
      var v := Digits(bytes);
      UndigitsDigits(bytes);
      ReadSpell(v);
      var s := Btoa(bytes);
      assert s[..|v|] == Spell(v);
      if |v| == 3 { DigitValue(v[2]); }
    } else {
      var v := Digits(bytes[..3]);
      UndigitsDigits(bytes[..3]);
      ReadSpell(v);
      DigitValue(v[3]);
      var s := Btoa(bytes);
      assert s[..4] == Spell(v) && s[4..] == Btoa(bytes[3..]);
      assert s[3] == Spell(v)[3] == Digit(v[3]);
      assert bytes == bytes[..3] + bytes[3..];
      AtobBtoa(bytes[3..]);
    }
  }

  /** Decoding the encoding of any bytes returns them. */
  lemma RoundTrip(bytes: Bytes)
    ensures Decode(Encode(bytes)) == Some(bytes)
  {
    EncodeIsUrlSafe(bytes);
    AtobBtoa(bytes);
  }

  // ---------- what is accepted ----------

  predicate AllDigits(s: string) {
    forall i :: 0 <= i < |s| ==> Value(s[i]).Some?
  }

  lemma {:induction false} ReadAccepts(s: string)
    ensures Read(s).Some? <==> AllDigits(s)
    decreases |s|
  {
    hide Value;
    if s != "" {
      ReadAccepts(s[1..]);
      assert AllDigits(s) ==> forall i :: 0 <= i < |s[1..]| ==> s[1..][i] == s[i + 1];
      assert Value(s[0]).Some? && AllDigits(s[1..]) ==> AllDigits(s) by {
        if Value(s[0]).Some? && AllDigits(s[1..]) {
          forall i | 0 <= i < |s|
            ensures Value(s[i]).Some?
          {
            if i > 0 { assert s[i] == s[1..][i - 1]; }
          }
        }
      }
    }
  }

  lemma NotDigits(s: string, i: nat)
    requires i < |s| && s[i] == '='
    ensures Read(s).None?
  {
    ReadAccepts(s);
    assert Value(s[i]).None?;
  }

  predicate NoPadAtEnd(s: string) {
    s == "" || s[|s| - 1] != '='
  }

  lemma {:induction false} AtobAccepts(digits: string, pads: nat)
    requires (|digits| + pads) % 4 == 0 && NoPadAtEnd(digits)
    ensures Atob(digits + Pads(pads)).Some? <==> AllDigits(digits) && pads <= 2
    decreases |digits|
  {
    hide Value, Undigits, Read, AllDigits;
    var s := digits + Pads(pads);
    if |digits| >= 4 {
      var first, rest := digits[..4], digits[4..];
      ReadAccepts(first);
      AtobAccepts(rest, pads);
      assert s[..4] == first && s[4..] == rest + Pads(pads);
      SplitDigits(digits, 4);
      LongAtob(s);
    } else if s != "" {
      ShortAtob(digits, pads);
    } else {
      NothingIsDigits();
    }
  }

  lemma NothingIsDigits()
    ensures AllDigits("")
  {
  }

  lemma SplitDigits(s: string, n: nat)
    requires n <= |s|
    ensures AllDigits(s) <==> AllDigits(s[..n]) && AllDigits(s[n..])
    ensures n == |s| ==> AllDigits(s[n..])
  {
    hide Value;
    assert s == s[..n] + s[n..];
    if AllDigits(s[..n]) && AllDigits(s[n..]) {
      forall i | 0 <= i < |s|
        ensures Value(s[i]).Some?
      {
        if i < n { assert s[i] == s[..n][i]; } else { assert s[i] == s[n..][i - n]; }
      }
    }
  }

  lemma LongAtob(s: string)
    requires |s| >= 4 && (|s| == 4 ==> s[3] != '=')
    ensures Atob(s).Some? <==> Read(s[..4]).Some? && Atob(s[4..]).Some?
  {
  }

  lemma ShortAtob(digits: string, pads: nat)
    requires |digits| < 4 && |digits| + pads > 0 && (|digits| + pads) % 4 == 0 && NoPadAtEnd(digits)
    ensures Atob(digits + Pads(pads)).Some? <==> AllDigits(digits) && pads <= 2
  {
    hide Value, Undigits, Read, AllDigits;
    var s := digits + Pads(pads);
    assert s[3] == '=';
    if |s| > 4 || pads > 2 {
      NotDigits(s[..4], 3);
      if |s| == 4 { NotDigits(s[..2], 1); }
    } else {
      ReadAccepts(digits);
      assert s[..|digits|] == digits;
    }
  }

  lemma {:induction false} StrippedSplits(s: string)
    ensures NoPadAtEnd(Stripped(s)) && |Stripped(s)| <= |s| && s == Stripped(s) + Pads(|s| - |Stripped(s)|)
    decreases |s|
  {
    if s != "" && s[|s| - 1] == '=' {
      StrippedSplits(s[..|s| - 1]);
    }
  }

  /** A digit of either base64 alphabet: the plain `+` and `/` are accepted too. */
  predicate InEitherAlphabet(c: char) {
    InUrlAlphabet(c) || c == '+' || c == '/'
  }

  lemma PlainDigits(s: string)
    ensures AllDigits(Translate(s, Plain)) <==> forall i :: 0 <= i < |s| ==> InEitherAlphabet(s[i])
  {
    var t := Translate(s, Plain);
    forall i | 0 <= i < |s|
      ensures Value(t[i]).Some? <==> InEitherAlphabet(s[i])
    {
      assert t[i] == Plain(s[i]);
    }
    if AllDigits(t) {
      forall i | 0 <= i < |s| ensures InEitherAlphabet(s[i]) { assert Value(t[i]).Some?; }
    }
  }

  /** A text decodes exactly when it is digits of either alphabet, one of them never alone in the last group, and no
      more padding than that group lacks. */
  lemma DecodeAccepts(s: string)
    ensures var digits := Stripped(s);
            Decode(s).Some? <==>
              && (forall i :: 0 <= i < |digits| ==> InEitherAlphabet(digits[i]))
              && |digits| % 4 != 1 && |s| - |digits| <= Missing(|digits|)
  {
    hide AllDigits, InEitherAlphabet, Plain, Atob, Missing, Stripped, NoPadAtEnd;
    var digits := Stripped(s);
    var k := |s| - |digits|;
    StrippedSplits(s);
    PlainKeepsEnd(digits);
    PadArithmetic(|digits|, k);
    PaddedAgain(s, digits, k);
    AtobAccepts(Translate(digits, Plain), k + Missing(|s|));
    PlainDigits(digits);
  }

  lemma PadArithmetic(n: nat, k: nat)
    ensures (n + k + Missing(n + k)) % 4 == 0
    ensures k + Missing(n + k) <= 2 <==> n % 4 != 1 && k <= Missing(n)
  {
    var q, r := n / 4, n % 4;
    if k <= 2 {
      assert n + k == 4 * q + (r + k);
    }
  }

  lemma PaddedAgain(s: string, digits: string, k: nat)
    requires s == digits + Pads(k)
    ensures Translate(s, Plain) + Pads(Missing(|s|)) == Translate(digits, Plain) + Pads(k + Missing(|s|))
  {
    hide Plain, Missing;
    TranslateConcat(digits, Pads(k), Plain);
    PlainPads(k);
    assert Pads(k) + Pads(Missing(|s|)) == Pads(k + Missing(|s|));
  }

  lemma PlainPads(n: nat)
    ensures Translate(Pads(n), Plain) == Pads(n)
  {
    assert Plain('=') == '=';
    assert forall i :: 0 <= i < n ==> Translate(Pads(n), Plain)[i] == Pads(n)[i];
  }

  lemma PlainKeepsEnd(s: string)
    requires NoPadAtEnd(s)
    ensures NoPadAtEnd(Translate(s, Plain))
  {
    if s != "" { assert Translate(s, Plain)[|s| - 1] == Plain(s[|s| - 1]); }
  }

  // ---------- the digits and the alphabets, written down ----------

  const A_TO_M := "ABCDEFGHIJKLM"
  const N_TO_Z := "NOPQRSTUVWXYZ"
  const SMALL_A_TO_M := "abcdefghijklm"
  const SMALL_N_TO_Z := "nopqrstuvwxyz"
  const DECIMALS := "0123456789"
  const LETTERS_AND_DIGITS := A_TO_M + N_TO_Z + SMALL_A_TO_M + SMALL_N_TO_Z + DECIMALS

  /** The alphabets of RFC 4648, tables 1 and 2. */
  const PLAIN_ALPHABET := LETTERS_AND_DIGITS + "+/"
  const URL_ALPHABET := LETTERS_AND_DIGITS + "-_"

  lemma AToM(i: nat)
    requires i < 13
    ensures Digit(0 + i) == SafeDigit(0 + i) == A_TO_M[i]
  {
    assert i == 0 || i == 1 || i == 2 || i == 3 || i == 4 || i == 5 || i == 6 || i == 7 || i == 8 || i == 9 || i == 10 || i == 11 || i == 12;
  }

  lemma NToZ(i: nat)
    requires i < 13
    ensures Digit(13 + i) == SafeDigit(13 + i) == N_TO_Z[i]
  {
    assert i == 0 || i == 1 || i == 2 || i == 3 || i == 4 || i == 5 || i == 6 || i == 7 || i == 8 || i == 9 || i == 10 || i == 11 || i == 12;
  }

  lemma SmallAToM(i: nat)
    requires i < 13
    ensures Digit(26 + i) == SafeDigit(26 + i) == SMALL_A_TO_M[i]
  {
    assert i == 0 || i == 1 || i == 2 || i == 3 || i == 4 || i == 5 || i == 6 || i == 7 || i == 8 || i == 9 || i == 10 || i == 11 || i == 12;
  }

  lemma SmallNToZ(i: nat)
    requires i < 13
    ensures Digit(39 + i) == SafeDigit(39 + i) == SMALL_N_TO_Z[i]
  {
    assert i == 0 || i == 1 || i == 2 || i == 3 || i == 4 || i == 5 || i == 6 || i == 7 || i == 8 || i == 9 || i == 10 || i == 11 || i == 12;
  }

  lemma Decimals(i: nat)
    requires i < 10
    ensures Digit(52 + i) == SafeDigit(52 + i) == DECIMALS[i]
  {
    assert i == 0 || i == 1 || i == 2 || i == 3 || i == 4 || i == 5 || i == 6 || i == 7 || i == 8 || i == 9;
  }

  lemma AlphabetsRead(v: Sextet)
    ensures |PLAIN_ALPHABET| == |URL_ALPHABET| == 64
    ensures Digit(v) == PLAIN_ALPHABET[v] && SafeDigit(v) == URL_ALPHABET[v]
  {
    if v < 13 { AToM(v); } else if v < 26 { NToZ(v - 13); } else if v < 39 { SmallAToM(v - 26); }
    else if v < 52 { SmallNToZ(v - 39); } else if v < 62 { Decimals(v - 52); }
  }

  /** The digits of a group are its number in base 64, the bits that a short group lacks being zero. */
  predicate Radix64(bytes: Bytes, d: seq<Sextet>)
    requires 1 <= |bytes| <= 3
  {
    && |d| == |bytes| + 1
    && var a: int, d0: int, d1: int := bytes[0], d[0], d[1];
       if |bytes| == 1 then a * 16 == d0 * 64 + d1
       else
         var b: int, d2: int := bytes[1], d[2];
         if |bytes| == 2 then (a * 256 + b) * 4 == d0 * 4096 + d1 * 64 + d2
         else
           var c: int, d3: int := bytes[2], d[3];
           a * 65536 + b * 256 + c == d0 * 262144 + d1 * 4096 + d2 * 64 + d3
  }

  lemma DigitsAreRadix64(bytes: Bytes)
    requires 1 <= |bytes| <= 3
    ensures Radix64(bytes, Digits(bytes))
  {
  }

  /** The encoding group by group: a group's characters are its base 64 digits in the URL alphabet, and after a full
      group comes the encoding of the rest. */
  lemma EncodingMeans(bytes: Bytes)
    ensures bytes == [] ==> Encode(bytes) == ""
    ensures bytes != [] ==>
              var group := if |bytes| < 3 then bytes else bytes[..3];
              && |Encode(bytes)| > |group|
              && (exists d :: Radix64(group, d) && forall i :: 0 <= i < |d| ==> Encode(bytes)[i] == URL_ALPHABET[d[i]])
              && Encode(bytes)[|group| + 1..] == (if |bytes| > 3 then Encode(bytes[3..]) else "")
  {
    hide Encode, Digits, SafeDigit, Radix64;
    EncodeIsUrlSafe(bytes);
    if bytes != [] {
      var group := if |bytes| < 3 then bytes else bytes[..3];
      var d := Digits(group);
      if |bytes| == 3 { assert bytes[..3] == bytes; }
      DigitsAreRadix64(group);
      UndigitsDigits(group);
      var rest := if |bytes| > 3 then UrlSafe(bytes[3..]) else "";
      assert UrlSafe(bytes) == SafeSpell(d) + rest;
      if |bytes| > 3 { EncodeIsUrlSafe(bytes[3..]); }
      forall i | 0 <= i < |d|
        ensures Encode(bytes)[i] == URL_ALPHABET[d[i]]
      {
        AlphabetsRead(d[i]);
      }
    }
  }

  /** The bytes of a group are its digits' number without the bits that a short group has too many. */
  predicate Radix256(v: seq<Sextet>, bytes: Bytes)
    requires 2 <= |v| <= 4
  {
    && |bytes| == |v| - 1
    && var a: int, d0: int, d1: int := bytes[0], v[0], v[1];
       if |v| == 2 then a == (d0 * 64 + d1) / 16
       else
         var b: int, d2: int := bytes[1], v[2];
         if |v| == 3 then a * 256 + b == (d0 * 4096 + d1 * 64 + d2) / 4
         else
           var c: int, d3: int := bytes[2], v[3];
           a * 65536 + b * 256 + c == d0 * 262144 + d1 * 4096 + d2 * 64 + d3
  }

  lemma UndigitsAreRadix256(v: seq<Sextet>)
    requires 2 <= |v| <= 4
    ensures Radix256(v, Undigits(v))
  {
    var d0: int, d1: int := v[0], v[1];
    assert d1 == d1 / 16 * 16 + d1 % 16;
    if |v| > 2 {
      var d2: int := v[2];
      assert d2 == d2 / 4 * 4 + d2 % 4;
    }
  }

  /** Decoding group by group: four digits of the URL alphabet are three bytes in front of what the rest decodes to, and a
      last group of two or three digits is one or two bytes, whatever its spare bits are. */
  lemma DecodingMeans(v: seq<Sextet>, rest: string)
    requires |v| == 4 || (2 <= |v| <= 3 && rest == "")
    ensures exists bytes ::
              && Radix256(v, bytes)
              && Decode(SafeSpell(v) + rest) == match Decode(rest) case None => None case Some(more) => Some(bytes + more)
  {
    hide Undigits, Digit, SafeDigit, Value, Plain, Radix256, Missing;
    var bytes, s := Undigits(v), SafeSpell(v) + rest;
    UndigitsAreRadix256(v);
    TranslateConcat(SafeSpell(v), rest, Plain);
    SpellTranslates(v);
    ReadSpell(v);
    MissingRest(|v|, |rest|);
    var tail := Translate(rest, Plain) + Pads(Missing(|s|));
    var t := Spell(v) + tail;
    assert Translate(s, Plain) + Pads(Missing(|s|)) == t;
    if |v| == 4 {
      DigitValue(v[3]);
      assert t[..4] == Spell(v) && t[4..] == tail && t[3] == Digit(v[3]);
      assert Decode(s) == Atob(t) && Atob(tail) == Decode(rest);
    } else {
      if |v| == 3 { DigitValue(v[2]); }
      assert t[..|v|] == Spell(v);
      assert Decode(rest) == Some([]) by { EmptyDecodes(); }
      assert bytes + [] == bytes;
    }
  }

  lemma EmptyDecodes()
    ensures Decode("") == Some([])
  {
    assert Translate("", Plain) + Pads(Missing(0)) == "";
  }

  lemma MissingRest(n: nat, m: nat)
    requires n == 4 || (2 <= n <= 3 && m == 0)
    ensures Missing(n + m) == if n == 4 then Missing(m) else 4 - n
  {
  }
}
