/** Lexical layer of the CSS check: comments, strings, escapes, and the `source(` token
    that may be spelled through comments. */
module TailwindLex {
  import opened Wrappers

  type Byte = b: int | 0 <= b < 256
  type Bytes = seq<Byte>

  /** The bytes of an ASCII literal. */
  function Lit(s: string): Bytes
    requires forall i :: 0 <= i < |s| ==> s[i] < '\U{0080}'
  {
    seq(|s|, i requires 0 <= i < |s| => s[i] as int)
  }

  const TAB: Byte := 9
  const NEWLINE: Byte := 10
  const FORM_FEED: Byte := 12
  const RETURN: Byte := 13
  const SPACE: Byte := 32
  const BANG: Byte := 33
  const DOUBLE_QUOTE: Byte := 34
  const SINGLE_QUOTE: Byte := 39
  const OPEN_PAREN: Byte := 40
  const CLOSE_PAREN: Byte := 41
  const STAR: Byte := 42
  const COMMA: Byte := 44
  const HYPHEN: Byte := 45
  const DOT: Byte := 46
  const SLASH: Byte := 47
  const SEMICOLON: Byte := 59
  const QUESTION: Byte := 63
  const AT: Byte := 64
  const OPEN_SQUARE: Byte := 91
  const BACKSLASH: Byte := 92
  const CLOSE_SQUARE: Byte := 93
  const UNDERSCORE: Byte := 95
  const OPEN_BRACE: Byte := 123
  const CLOSE_BRACE: Byte := 125

  predicate Ascii(b: Byte) {
    b < 128
  }

  predicate Letter(b: Byte) {
    65 <= b <= 90 || 97 <= b <= 122
  }

  predicate Digit(b: Byte) {
    48 <= b <= 57
  }

  function Lower(b: Byte): Byte {
    if 65 <= b <= 90 then b + 32 else b
  }

  /** ASCII case only. */
  lemma LowerReads(b: Byte)
    ensures 'A' as int <= b <= 'Z' as int ==> 'a' as int <= Lower(b) <= 'z' as int && Lower(b) - 'a' as int == b - 'A' as int
    ensures !('A' as int <= b <= 'Z' as int) ==> Lower(b) == b
  {
  }

  predicate Quote(b: Byte) {
    b == SINGLE_QUOTE || b == DOUBLE_QUOTE
  }

  predicate At(css: Bytes, pos: nat, b: Byte) {
    pos < |css| && css[pos] == b
  }

  predicate StartsComment(css: Bytes, pos: nat) {
    At(css, pos, SLASH) && At(css, pos + 1, STAR)
  }

  function Min(a: nat, b: nat): nat {
    if a < b then a else b
  }

  /** Where a comment whose body starts at `pos` ends; a backslash hides the byte after it. */
  function CommentEnd(css: Bytes, pos: nat): (e: Option<nat>)
    ensures e.Some? ==> pos + 2 <= e.value <= |css| && css[e.value - 1] == SLASH
    decreases |css| - pos
  {
    if pos >= |css| then None
    else if css[pos] == BACKSLASH then CommentEnd(css, Min(pos + 2, |css|))
    else if css[pos] == STAR && At(css, pos + 1, SLASH) then Some(pos + 2)
    else CommentEnd(css, pos + 1)
  }

  /** Where a string opened with `quote` before `pos` ends. */
  function StringEnd(css: Bytes, quote: Byte, pos: nat): (e: Option<nat>)
    ensures e.Some? ==> pos + 1 <= e.value <= |css| && css[e.value - 1] == quote
    decreases |css| - pos
  {
    if pos >= |css| then None
    else if css[pos] == BACKSLASH then StringEnd(css, quote, pos + 2)
    else if css[pos] == quote then Some(pos + 1)
    else StringEnd(css, quote, pos + 1)
  }

  /** One lexeme: a comment, a string or an escape with its end, or a plain byte. */
  datatype Lexeme = Comment(end: nat) | Text(end: nat) | Escape(end: nat) | Plain | Unterminated

  function LexAt(css: Bytes, pos: nat): (l: Lexeme)
    requires pos < |css|
    ensures l.Comment? || l.Text? || l.Escape? ==> pos < l.end <= |css|
  {
    if StartsComment(css, pos) then
      match CommentEnd(css, pos + 2)
      case Some(e) => Comment(e)
      case None => Unterminated
    else if Quote(css[pos]) then
      match StringEnd(css, css[pos], pos + 1)
      case Some(e) => Text(e)
      case None => Unterminated
    else if css[pos] == BACKSLASH then Escape(Min(pos + 2, |css|))
    else Plain
  }

  /** The bytes that are neither in a comment, a string nor an escape. */
  function PlainBytes(css: Bytes, pos: nat): Bytes
    decreases |css| - pos
  {
    if pos >= |css| then []
    else
      match LexAt(css, pos)
      case Comment(e) => PlainBytes(css, e)
      case Text(e) => PlainBytes(css, e)
      case Escape(e) => PlainBytes(css, e)
      case Plain => [css[pos]] + PlainBytes(css, pos + 1)
      case Unterminated => []
  }

  // ---------- where comments and strings end ----------

  /** Byte `i` is hidden by a backslash of the text that starts at `from`: an odd number of them stand in front of it. */
  predicate Escaped(css: Bytes, from: nat, i: nat)
    requires i <= |css|
  {
    from < i && css[i - 1] == BACKSLASH && !Escaped(css, from, i - 1)
  }

  /** A string ends behind the first quote of its kind that is not hidden. */
  lemma StringEndMeans(css: Bytes, quote: Byte, from: nat, end: nat)
    requires quote != BACKSLASH
    ensures StringEnd(css, quote, from) == Some(end) <==>
              && from < end <= |css| && css[end - 1] == quote && !Escaped(css, from, end - 1)
              && forall i :: from <= i < end - 1 && css[i] == quote ==> Escaped(css, from, i)
  {
    StringEndFrom(css, quote, from, from);
    if StringEnd(css, quote, from).Some? {
      assert forall i :: from <= i < |css| && css[i] == quote && !Escaped(css, from, i) ==>
          StringEnd(css, quote, from).value <= i + 1;
    }
  }

  /** From a byte that is not hidden on, the end found is the first unhidden quote, and there is one if any. */
  lemma {:induction false} StringEndFrom(css: Bytes, quote: Byte, from: nat, pos: nat)
    requires quote != BACKSLASH && from <= pos && (pos <= |css| ==> !Escaped(css, from, pos))
    ensures var e := StringEnd(css, quote, pos);
            && (e.Some? ==> !Escaped(css, from, e.value - 1)
                            && forall i :: pos <= i < e.value - 1 && css[i] == quote ==> Escaped(css, from, i))
            && (e.None? ==> forall i :: pos <= i < |css| && css[i] == quote ==> Escaped(css, from, i))
    decreases |css| - pos
  {
    if pos < |css| {
      if css[pos] == BACKSLASH {
        if pos + 1 < |css| { assert Escaped(css, from, pos + 1); }
        StringEndFrom(css, quote, from, pos + 2);
      } else if css[pos] != quote {
        StringEndFrom(css, quote, from, pos + 1);
      }
    }
  }

  /** A comment ends behind the first star and slash whose star is not hidden. */
  lemma CommentEndMeans(css: Bytes, from: nat, end: nat)
    ensures CommentEnd(css, from) == Some(end) <==>
              && from + 2 <= end <= |css| && css[end - 2] == STAR && css[end - 1] == SLASH && !Escaped(css, from, end - 2)
              && forall i :: from <= i < end - 2 && css[i] == STAR && css[i + 1] == SLASH ==> Escaped(css, from, i)
  {
    CommentEndFrom(css, from, from);
    if CommentEnd(css, from).Some? {
      assert forall i :: from <= i < |css| - 1 && css[i] == STAR && css[i + 1] == SLASH && !Escaped(css, from, i) ==>
          CommentEnd(css, from).value <= i + 2;
    }
  }

  lemma {:induction false} CommentEndFrom(css: Bytes, from: nat, pos: nat)
    requires from <= pos && (pos < |css| ==> !Escaped(css, from, pos))
    ensures var e := CommentEnd(css, pos);
            && (e.Some? ==> css[e.value - 2] == STAR && !Escaped(css, from, e.value - 2)
                            && forall i :: pos <= i < e.value - 2 && css[i] == STAR && css[i + 1] == SLASH ==> Escaped(css, from, i))
            && (e.None? ==> forall i :: pos <= i < |css| - 1 && css[i] == STAR && css[i + 1] == SLASH ==> Escaped(css, from, i))
    decreases |css| - pos
  {
    if pos < |css| {
      if css[pos] == BACKSLASH {
        if pos + 1 < |css| { assert Escaped(css, from, pos + 1); }
        CommentEndFrom(css, from, Min(pos + 2, |css|));
      } else if !(css[pos] == STAR && At(css, pos + 1, SLASH)) {
        CommentEndFrom(css, from, pos + 1);
      }
    }
  }

  // ---------- source( ----------

  /** The text from `pos` on with comments removed; an unterminated comment ends it. */
  function Elide(css: Bytes, pos: nat): Bytes
    decreases |css| - pos
  {
    if pos >= |css| then []
    else if StartsComment(css, pos) then
      match CommentEnd(css, pos + 2)
      case Some(e) => Elide(css, e)
      case None => []
    else [css[pos]] + Elide(css, pos + 1)
  }

  /** `pattern` (lower case) starts `text`, ignoring ASCII case. */
  predicate Spells(text: Bytes, pattern: Bytes) {
    |pattern| <= |text| && forall i :: 0 <= i < |pattern| ==> Lower(text[i]) == pattern[i]
  }

  const SOURCE := [115, 111, 117, 114, 99, 101, 40]

  lemma SourceIsSource()
    ensures SOURCE == Lit("source(")
  {
  }

  /** The comment-elided text at `pos` starts with `source(`, ignoring case. */
  predicate SourceAt(css: Bytes, pos: nat) {
    Spells(Elide(css, pos), SOURCE)
  }

  function SkipComments(css: Bytes, pos: nat): (e: Option<nat>)
    ensures e.Some? ==> pos <= e.value && !StartsComment(css, e.value) && (pos <= |css| ==> e.value <= |css|)
    decreases |css| - pos
  {
    if StartsComment(css, pos) then
      match CommentEnd(css, pos + 2)
      case Some(e) => SkipComments(css, e)
      case None => None
    else Some(pos)
  }

  /** Match `pattern` letter by letter, skipping comments before each letter; `None` is an unterminated comment. */
  function MatchElided(css: Bytes, pos: nat, pattern: Bytes): Option<bool>
    decreases |pattern|
  {
    if pattern == [] then Some(true)
    else
      match SkipComments(css, pos)
      case None => None
      case Some(p) =>
        if p < |css| && Lower(css[p]) == pattern[0] then MatchElided(css, p + 1, pattern[1..]) else Some(false)
  }

  function SourceToken(css: Bytes, pos: nat): Option<bool>
    requires pos < |css|
  {
    if Lower(css[pos]) != SOURCE[0] then Some(false) else MatchElided(css, pos, SOURCE)
  }

  lemma {:induction false} ElideSkips(css: Bytes, pos: nat)
    ensures match SkipComments(css, pos)
            case Some(p) => Elide(css, pos) == Elide(css, p)
            case None => Elide(css, pos) == []
    decreases |css| - pos
  {
    if StartsComment(css, pos) {
      match CommentEnd(css, pos + 2)
      case Some(e) => ElideSkips(css, e);
      case None =>
    }
  }

  /** Letter-by-letter matching through comments is prefix matching on the elided text. */
  lemma {:induction false} MatchIsElided(css: Bytes, pos: nat, pattern: Bytes)
    ensures match MatchElided(css, pos, pattern)
            case Some(v) => v == Spells(Elide(css, pos), pattern)
            case None => !Spells(Elide(css, pos), pattern)
    decreases |pattern|
  {
    if pattern != [] {
      ElideSkips(css, pos);
      match SkipComments(css, pos)
      case None =>
      case Some(p) =>
        if p < |css| {
          assert Elide(css, p) == [css[p]] + Elide(css, p + 1);
          MatchIsElided(css, p + 1, pattern[1..]);
          SpellsTail(css[p], Elide(css, p + 1), pattern);
        }
    }
  }

  lemma SpellsTail(first: Byte, rest: Bytes, pattern: Bytes)
    requires pattern != []
    ensures Spells([first] + rest, pattern) <==> Lower(first) == pattern[0] && Spells(rest, pattern[1..])
  {
    var text := [first] + rest;
    if Spells(text, pattern) {
      assert Lower(text[0]) == pattern[0];
      forall i | 0 <= i < |pattern[1..]|
        ensures Lower(rest[i]) == pattern[1..][i]
      {
        assert Lower(text[i + 1]) == pattern[i + 1];
      }
    }
    if Lower(first) == pattern[0] && Spells(rest, pattern[1..]) {
      forall i | 0 <= i < |pattern|
        ensures Lower(text[i]) == pattern[i]
      {
        if i > 0 {
          assert text[i] == rest[i - 1] && pattern[i] == pattern[1..][i - 1];
        }
      }
    }
  }

  /** `source_token` at a token position: true exactly when the comment-elided text there starts with
      `source(` ignoring case; it refuses only in front of an unterminated comment. */
  lemma SourceTokenMeansElided(css: Bytes, pos: nat)
    requires pos < |css| && !StartsComment(css, pos)
    ensures SourceToken(css, pos).Some? ==> (SourceToken(css, pos).value <==> SourceAt(css, pos))
    ensures SourceToken(css, pos).None? ==>
              !SourceAt(css, pos) && exists q :: pos < q && StartsComment(css, q) && CommentEnd(css, q + 2).None?
  {
    hide CommentEnd, MatchElided, SkipComments;
    MatchIsElided(css, pos, SOURCE);
    assert Elide(css, pos)[0] == css[pos];
    if SourceToken(css, pos).None? {
      RefusalIsUnterminated(css, pos, SOURCE);
    }
  }

  lemma {:induction false} RefusalIsUnterminated(css: Bytes, pos: nat, pattern: Bytes)
    requires MatchElided(css, pos, pattern).None?
    ensures exists q :: pos <= q && StartsComment(css, q) && CommentEnd(css, q + 2).None?
    decreases |pattern|
  {
    match SkipComments(css, pos)
    case None => SkipRefuses(css, pos);
    case Some(p) =>
      RefusalIsUnterminated(css, p + 1, pattern[1..]);
  }

  lemma {:induction false} SkipRefuses(css: Bytes, pos: nat)
    requires SkipComments(css, pos).None?
    ensures exists q :: pos <= q && StartsComment(css, q) && CommentEnd(css, q + 2).None?
    decreases |css| - pos
  {
    match CommentEnd(css, pos + 2)
    case Some(e) => SkipRefuses(css, e);
    case None => assert StartsComment(css, pos);
  }

  /** How many plain positions from `pos` on start a `source(`. */
  function CountSources(css: Bytes, pos: nat): nat
    decreases |css| - pos
  {
    if pos >= |css| then 0
    else
      match LexAt(css, pos)
      case Comment(e) => CountSources(css, e)
      case Text(e) => CountSources(css, e)
      case Escape(e) => CountSources(css, e)
      case Plain => (if SourceAt(css, pos) then 1 else 0) + CountSources(css, pos + 1)
      case Unterminated => 0
  }
}
