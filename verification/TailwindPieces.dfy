/** The text of declarations, rules and values in pieces: bytes, strings, escapes and comments, and how the scanner reads
    it. */
module TailwindPieces {
  import opened Wrappers
  import opened TailwindLex
  import opened TailwindSpec
  import opened TailwindSources
  import opened TailwindNesting

  // ---------- pieces ----------

  datatype Piece = One(b: Byte) | Str(quote: Byte, body: Bytes) | Esc(b: Byte) | Remark(body: Bytes)

  function PieceText(p: Piece): Bytes {
    match p
    case One(b) => [b]
    case Str(quote, body) => [quote] + body + [quote]
    case Esc(b) => [BACKSLASH, b]
    case Remark(body) => [SLASH, STAR] + body + [STAR, SLASH]
  }

  function Written(pieces: seq<Piece>): Bytes {
    if pieces == [] then [] else PieceText(pieces[0]) + Written(pieces[1..])
  }

  /** The text without its comments. */
  function Bare(pieces: seq<Piece>): Bytes {
    if pieces == [] then []
    else (if pieces[0].Remark? then [] else PieceText(pieces[0])) + Bare(pieces[1..])
  }

  /** The bytes outside strings, escapes and comments. */
  function Ones(pieces: seq<Piece>): Bytes {
    if pieces == [] then []
    else (if pieces[0].One? then [pieces[0].b] else []) + Ones(pieces[1..])
  }

  /** A byte is ASCII and begins neither string nor escape; a string holds no backslash and no quote of its own kind, a
      comment no star and no backslash. */
  predicate PieceOk(p: Piece) {
    match p
    case One(b) => b < 128 && b != SINGLE_QUOTE && b != DOUBLE_QUOTE && b != BACKSLASH
    case Str(quote, body) =>
      && (quote == SINGLE_QUOTE || quote == DOUBLE_QUOTE)
      && forall i :: 0 <= i < |body| ==> body[i] != quote && body[i] != BACKSLASH
    case Esc(b) => b < 128
    case Remark(body) => forall i :: 0 <= i < |body| ==> body[i] != STAR && body[i] != BACKSLASH
  }

  /** No slash is followed by a star of its own. */
  predicate PiecesOk(pieces: seq<Piece>) {
    && (forall k :: 0 <= k < |pieces| ==> PieceOk(pieces[k]))
    && forall k :: 0 < k < |pieces| && pieces[k - 1] == One(SLASH) ==> pieces[k] != One(STAR)
  }

  /** No byte outside strings, escapes and comments starts a `source(` of the text without its comments. */
  predicate Sourceless(pieces: seq<Piece>) {
    forall k :: 0 <= k < |pieces| && pieces[k].One? ==> !Spells(Bare(pieces[k..]), Lit("source("))
  }

  // ---------- where texts stand ----------

  /** `text` stands at `pos`. */
  predicate Stands(css: Bytes, pos: nat, text: Bytes) {
    pos + |text| <= |css| && css[pos..pos + |text|] == text
  }

  lemma StandsAt(css: Bytes, pos: nat, text: Bytes, i: nat)
    requires Stands(css, pos, text) && i < |text|
    ensures css[pos + i] == text[i]
  {
    assert css[pos..pos + |text|][i] == css[pos + i];
  }

  lemma StandsParts(css: Bytes, pos: nat, a: Bytes, b: Bytes)
    requires Stands(css, pos, a + b)
    ensures Stands(css, pos, a) && Stands(css, pos + |a|, b)
  {
    var text := a + b;
    assert text[..|a|] == a && text[|a|..] == b;
    assert css[pos..pos + |text|][..|a|] == css[pos..pos + |a|];
    assert css[pos..pos + |text|][|a|..] == css[pos + |a|..pos + |text|];
  }

  /** The pieces stand at `pos`, in front of a semicolon or an opening brace. */
  predicate Lie(css: Bytes, pos: nat, pieces: seq<Piece>) {
    && PiecesOk(pieces) && Stands(css, pos, Written(pieces))
    && var stop := pos + |Written(pieces)|; stop < |css| && (css[stop] == SEMICOLON || css[stop] == OPEN_BRACE)
  }

  lemma OkRest(pieces: seq<Piece>)
    requires PiecesOk(pieces) && pieces != []
    ensures PieceOk(pieces[0]) && PiecesOk(pieces[1..])
  {
    hide PieceOk;
    var rest := pieces[1..];
    assert forall k :: 0 <= k < |rest| ==> rest[k] == pieces[k + 1];
  }

  lemma WrittenFirst(pieces: seq<Piece>)
    requires pieces != []
    ensures Written(pieces) == PieceText(pieces[0]) + Written(pieces[1..])
  {
  }

  lemma LieRest(css: Bytes, pos: nat, pieces: seq<Piece>)
    requires Lie(css, pos, pieces) && pieces != []
    ensures Stands(css, pos, PieceText(pieces[0])) && Lie(css, pos + |PieceText(pieces[0])|, pieces[1..])
    ensures PieceOk(pieces[0]) && pos + |Written(pieces)| == pos + |PieceText(pieces[0])| + |Written(pieces[1..])|
  {
    hide PieceText, PieceOk, PiecesOk, Written, Stands;
    OkRest(pieces);
    WrittenFirst(pieces);
    StandsParts(css, pos, PieceText(pieces[0]), Written(pieces[1..]));
  }

  lemma SourcelessRest(pieces: seq<Piece>, k: nat)
    requires Sourceless(pieces) && k <= |pieces|
    ensures Sourceless(pieces[k..])
  {
    hide Spells, Bare, Lit;
    forall i | 0 <= i < |pieces[k..]| && pieces[k..][i].One?
      ensures !Spells(Bare(pieces[k..][i..]), Lit("source("))
    {
      assert pieces[k..][i..] == pieces[k + i..];
    }
  }

  // ---------- lexemes ----------

  lemma {:induction false} CommentEndAt(css: Bytes, pos: nat, end: nat)
    requires pos <= end && At(css, end, STAR) && At(css, end + 1, SLASH)
    requires forall j :: pos <= j < end ==> css[j] != STAR && css[j] != BACKSLASH
    ensures CommentEnd(css, pos) == Some(end + 2)
    decreases end - pos
  {
    if pos < end { CommentEndAt(css, pos + 1, end); }
  }

  lemma RemarkLexes(css: Bytes, pos: nat, body: Bytes)
    requires PieceOk(Remark(body)) && Stands(css, pos, PieceText(Remark(body)))
    ensures pos < |css| && StartsComment(css, pos) && CommentEnd(css, pos + 2) == Some(pos + |body| + 4)
  {
    hide CommentEnd, Stands;
    var open, close := [SLASH, STAR], [STAR, SLASH];
    StandsParts(css, pos, open + body, close);
    StandsParts(css, pos, open, body);
    StandsAt(css, pos, open, 0);
    StandsAt(css, pos, open, 1);
    var end := pos + 2 + |body|;
    StandsAt(css, end, close, 0);
    StandsAt(css, end, close, 1);
    forall j | pos + 2 <= j < end
      ensures css[j] != STAR && css[j] != BACKSLASH
    {
      StandsAt(css, pos + 2, body, j - pos - 2);
    }
    CommentEndAt(css, pos + 2, end);
  }

  lemma StrLexes(css: Bytes, pos: nat, quote: Byte, body: Bytes)
    requires PieceOk(Str(quote, body)) && Stands(css, pos, PieceText(Str(quote, body)))
    ensures pos < |css| && css[pos] == quote && LexAt(css, pos) == Text(pos + |body| + 2)
  {
    hide StringEnd;
    var text := [quote] + body + [quote];
    StandsAt(css, pos, text, 0);
    StandsAt(css, pos, text, |body| + 1);
    forall j | pos + 1 <= j < pos + 1 + |body|
      ensures css[j] != BACKSLASH && css[j] != quote
    {
      StandsAt(css, pos, text, j - pos);
      assert text[j - pos] == body[j - pos - 1];
    }
    StringEndAt(css, quote, pos + 1, pos + 1 + |body|);
  }

  lemma EscLexes(css: Bytes, pos: nat, b: Byte)
    requires PieceOk(Esc(b)) && Stands(css, pos, PieceText(Esc(b)))
    ensures pos + 1 < |css| && css[pos] == BACKSLASH && LexAt(css, pos) == Escape(pos + 2) && SkipEscape(css, pos).Some?
  {
    StandsAt(css, pos, [BACKSLASH, b], 0);
    StandsAt(css, pos, [BACKSLASH, b], 1);
  }

  /** What a piece may begin with. */
  lemma FirstByte(p: Piece)
    requires PieceOk(p)
    ensures PieceText(p) != [] && PieceText(p)[0] < 128 && (p != One(STAR) ==> PieceText(p)[0] != STAR)
  {
  }

  lemma OneLexes(css: Bytes, pos: nat, pieces: seq<Piece>)
    requires Lie(css, pos, pieces) && pieces != [] && pieces[0].One?
    ensures pos < |css| && css[pos] == pieces[0].b && LexAt(css, pos) == Lexeme.Plain && !StartsComment(css, pos)
  {
    hide Stands;
    LieRest(css, pos, pieces);
    StandsAt(css, pos, [pieces[0].b], 0);
    if pieces[0].b == SLASH {
      var rest := pieces[1..];
      if rest != [] {
        LieRest(css, pos + 1, rest);
        FirstByte(rest[0]);
        StandsAt(css, pos + 1, PieceText(rest[0]), 0);
        assert rest[0] == pieces[1];
      }
    }
  }

  // ---------- no source( ----------

  /** Bytes that stand in `source(` and begin no string, escape or comment. */
  predicate Word(pattern: Bytes) {
    forall i :: 0 <= i < |pattern| ==>
      && pattern[i] != SINGLE_QUOTE && pattern[i] != DOUBLE_QUOTE && pattern[i] != BACKSLASH && pattern[i] != SLASH
      && pattern[i] != SEMICOLON && pattern[i] != OPEN_BRACE
  }

  /** Matching letter by letter through the pieces is plain prefix matching on the text without comments. */
  lemma {:induction false} MatchPieces(css: Bytes, pos: nat, pieces: seq<Piece>, pattern: Bytes)
    requires Lie(css, pos, pieces) && Word(pattern)
    ensures MatchElided(css, pos, pattern) == Some(Spells(Bare(pieces), pattern))
    decreases |pieces|
  {
    hide Lie, PieceText, LexAt;
    if pattern != [] {
      if pieces == [] {
        LieEnds(css, pos);
      } else {
        LieRest(css, pos, pieces);
        var rest := pieces[1..];
        match pieces[0]
        case One(b) =>
          OneLexes(css, pos, pieces);
          MatchPieces(css, pos + 1, rest, pattern[1..]) by { OneText(b); }
          SpellsTail(b, Bare(rest), pattern);
          assert Bare(pieces) == [b] + Bare(rest) by { OneText(b); }
        case Remark(body) =>
          RemarkLexes(css, pos, body);
          RemarkText(body);
          MatchPieces(css, pos + |body| + 4, rest, pattern);
          assert Bare(pieces) == Bare(rest);
          SkipsRemark(css, pos, pos + |body| + 4, pattern);
        case Str(quote, body) =>
          StrLexes(css, pos, quote, body);
          QuotedBare(pieces);
        case Esc(b) =>
          EscLexes(css, pos, b);
          QuotedBare(pieces);
      }
    }
  }

  lemma SkipsRemark(css: Bytes, pos: nat, end: nat, pattern: Bytes)
    requires StartsComment(css, pos) && CommentEnd(css, pos + 2) == Some(end)
    ensures MatchElided(css, pos, pattern) == MatchElided(css, end, pattern)
  {
  }

  lemma OneText(b: Byte)
    ensures PieceText(One(b)) == [b]
  {
  }

  lemma RemarkText(body: Bytes)
    ensures |PieceText(Remark(body))| == |body| + 4
  {
  }

  lemma LieEnds(css: Bytes, pos: nat)
    requires Lie(css, pos, [])
    ensures pos < |css| && (css[pos] == SEMICOLON || css[pos] == OPEN_BRACE)
  {
  }

  lemma QuotedBare(pieces: seq<Piece>)
    requires pieces != [] && PieceOk(pieces[0]) && (pieces[0].Str? || pieces[0].Esc?)
    ensures var b := Bare(pieces)[0];
            Bare(pieces) != [] && b == if pieces[0].Str? then pieces[0].quote else BACKSLASH
  {
  }

  lemma PieceToken(css: Bytes, pos: nat, pieces: seq<Piece>)
    requires Lie(css, pos, pieces) && Sourceless(pieces) && pieces != [] && pieces[0].One?
    ensures pos < |css| && SourceToken(css, pos) == Some(false)
  {
    hide Lie, MatchElided, Spells, Bare;
    OneLexes(css, pos, pieces);
    SourceIsSource();
    MatchPieces(css, pos, pieces, SOURCE);
    assert pieces[0..] == pieces;
  }

  // ---------- text in statements ----------

  lemma OneRound(css: Bytes, st: State)
    requires st.pos < |css| && Round(css, st).Some?
    ensures Scan(css, st) == Scan(css, Round(css, st).value)
  {
    hide Round;
  }

  /** A byte that means nothing to the check but parentheses. */
  predicate Calm(b: Byte) {
    b != SEMICOLON && b != OPEN_BRACE && b != CLOSE_BRACE && b != AT
  }

  /** Pieces with calm bytes and balanced parentheses that nowhere spell `source(`. */
  predicate CalmText(pieces: seq<Piece>) {
    && PiecesOk(pieces) && Sourceless(pieces)
    && (forall k :: 0 <= k < |pieces| && pieces[k].One? ==> Calm(pieces[k].b))
    && Level(Ones(pieces), OPEN_PAREN, CLOSE_PAREN, 0) == Some(0)
  }

  /** Begins with a string, an escape, or a byte that is neither blank nor hyphen. */
  predicate Begins(pieces: seq<Piece>) {
    && pieces != [] && !pieces[0].Remark?
    && (pieces[0].One? ==>
          pieces[0].b != SPACE && pieces[0].b != TAB && pieces[0].b != NEWLINE && pieces[0].b != RETURN && pieces[0].b != HYPHEN)
  }

  lemma ByteRound(css: Bytes, st: State)
    requires st.pos < |css| && LexAt(css, st.pos) == Lexeme.Plain && Ascii(css[st.pos]) && Calm(css[st.pos])
    requires st.custom.None? && SourceToken(css, st.pos) == Some(false)
    requires st.content || Begins([One(css[st.pos])])
    requires css[st.pos] == CLOSE_PAREN ==> st.paren > 0
    ensures var b := css[st.pos];
            Round(css, st) == Some(st.(pos := st.pos + 1, content := true,
              paren := if b == OPEN_PAREN then st.paren + 1 else if b == CLOSE_PAREN then st.paren - 1 else st.paren))
  {
    hide SourceToken, AtRule, LexAt;
  }

  /** The round at a string, an escape or, inside a statement, a comment. */
  lemma LumpRound(css: Bytes, st: State, p: Piece)
    requires PieceOk(p) && !p.One? && Stands(css, st.pos, PieceText(p)) && (p.Remark? ==> st.content)
    ensures st.pos < |css| && Round(css, st) == Some(st.(pos := st.pos + |PieceText(p)|, content := true))
  {
    hide Stands, CommentEnd, StringEnd, SourceToken, InCustom, InRule;
    match p
    case Str(quote, body) => StrLexes(css, st.pos, quote, body);
    case Esc(b) => EscLexes(css, st.pos, b);
    case Remark(body) => RemarkLexes(css, st.pos, body);
  }

  lemma OnesStep(pieces: seq<Piece>)
    ensures Ones(pieces)
         == if pieces == [] then [] else (if pieces[0].One? then [pieces[0].b] else []) + Ones(pieces[1..])
  {
  }

  lemma LevelStep(b: Byte, rest: Bytes, level: nat, reached: nat)
    requires Level([b] + rest, OPEN_PAREN, CLOSE_PAREN, level) == Some(reached)
    ensures b == CLOSE_PAREN ==> level > 0
    ensures Level(rest, OPEN_PAREN, CLOSE_PAREN,
                  if b == OPEN_PAREN then level + 1 else if b == CLOSE_PAREN then level - 1 else level) == Some(reached)
  {
    assert ([b] + rest)[1..] == rest;
  }

  /** Calm pieces up to their end raise the flag and follow the parentheses. */
  lemma {:induction false} PiecesRun(css: Bytes, st: State, pieces: seq<Piece>, level: nat)
    requires st.custom.None? && Lie(css, st.pos, pieces) && Sourceless(pieces)
    requires forall k :: 0 <= k < |pieces| && pieces[k].One? ==> Calm(pieces[k].b)
    requires Level(Ones(pieces), OPEN_PAREN, CLOSE_PAREN, st.paren) == Some(level)
    requires st.content || Begins(pieces)
    ensures Scan(css, st) == Scan(css, st.(pos := st.pos + |Written(pieces)|, paren := level, content := true))
    decreases |pieces|
  {
    hide Lie, Sourceless, Scan, Round, Level, SourceToken, LexAt, PieceText, Ones, Calm, Written;
    OnesStep(pieces);
    if pieces == [] {
      NothingLevels(st.paren);
      NothingWritten();
    } else {
      var p, rest := pieces[0], pieces[1..];
      LieRest(css, st.pos, pieces);
      SourcelessRest(pieces, 1);
      if p.One? {
        OneText(p.b);
        OneLexes(css, st.pos, pieces);
        PieceToken(css, st.pos, pieces);
        LevelStep(p.b, Ones(rest), st.paren, level);
        ByteRound(css, st);
      } else {
        LumpRound(css, st, p);
        assert [] + Ones(rest) == Ones(rest);
      }
      OneRound(css, st);
      PiecesRun(css, Round(css, st).value, rest, level);
    }
  }

  lemma NothingLevels(level: nat)
    ensures Level([], OPEN_PAREN, CLOSE_PAREN, level) == Some(level)
  {
  }

  lemma NothingWritten()
    ensures Written([]) == []
  {
  }

  /** A calm text in front of its terminator is read to there. */
  lemma CalmTextRuns(css: Bytes, st: State, text: seq<Piece>)
    requires Stands(css, st.pos, Written(text)) && CalmText(text) && st.custom.None? && st.paren == 0
    requires var stop := st.pos + |Written(text)|; stop < |css| && (css[stop] == SEMICOLON || css[stop] == OPEN_BRACE)
    requires st.content || Begins(text)
    ensures Scan(css, st) == Scan(css, st.(pos := st.pos + |Written(text)|, content := true))
  {
    hide Scan, Sourceless, Level, PiecesOk, Begins, Stands;
    PiecesRun(css, st, text, 0);
  }

  // ---------- text in custom property values ----------

  /** What stands in a value: a piece, or a group in brackets. */
  datatype Part = Bit(p: Piece) | Group(open: Byte, close: Byte, parts: seq<Part>)

  /** The pieces of a value, brackets included. */
  function Flat(parts: seq<Part>): seq<Piece>
    decreases parts
  {
    if parts == [] then []
    else
      (match parts[0]
       case Bit(p) => [p]
       case Group(open, close, inner) => [One(open)] + Flat(inner) + [One(close)]) + Flat(parts[1..])
  }

  predicate PartsOk(parts: seq<Part>)
    decreases parts
  {
    forall i :: 0 <= i < |parts| ==> PartOk(parts[i])
  }

  predicate PartOk(part: Part)
    decreases part
  {
    match part
    case Bit(p) => p.One? ==> Calm(p.b) && Closer(p.b).None? && !IsCloser(p.b)
    case Group(open, close, inner) => Closer(open) == Some(close) && PartsOk(inner)
  }

  lemma ChRound(css: Bytes, st: State)
    requires st.pos < |css| && LexAt(css, st.pos) == Lexeme.Plain && Ascii(css[st.pos]) && SourceToken(css, st.pos) == Some(false)
    requires st.custom.Some? && Calm(css[st.pos]) && Closer(css[st.pos]).None? && !IsCloser(css[st.pos])
    ensures Round(css, st) == Some(st.(pos := st.pos + 1))
  {
    hide SourceToken, LexAt;
  }

  lemma OpenRound(css: Bytes, st: State)
    requires st.pos < |css| && LexAt(css, st.pos) == Lexeme.Plain && SourceToken(css, st.pos) == Some(false)
    requires st.custom.Some? && Closer(css[st.pos]).Some?
    ensures Round(css, st) == Some(st.(pos := st.pos + 1, custom := Some(st.custom.value + [Closer(css[st.pos]).value])))
  {
    hide SourceToken, LexAt;
  }

  lemma CloseRound(css: Bytes, st: State, closers: Bytes)
    requires st.pos < |css| && LexAt(css, st.pos) == Lexeme.Plain && SourceToken(css, st.pos) == Some(false)
    requires IsCloser(css[st.pos]) && st.custom == Some(closers + [css[st.pos]])
    ensures Round(css, st) == Some(st.(pos := st.pos + 1, custom := Some(closers)))
  {
    hide SourceToken, LexAt;
    assert (closers + [css[st.pos]])[..|closers|] == closers;
  }

  lemma FlatFirst(parts: seq<Part>)
    requires parts != []
    ensures match parts[0]
            case Bit(p) => Flat(parts) == [p] + Flat(parts[1..])
            case Group(open, close, inner) => Flat(parts) == [One(open)] + Flat(inner) + [One(close)] + Flat(parts[1..])
  {
  }

  lemma Regroup(a: seq<Piece>, b: seq<Piece>, c: seq<Piece>, d: seq<Piece>, e: seq<Piece>)
    ensures a + b + c + d + e == a + (b + (c + (d + e))) && a + d + e == a + (d + e)
  {
  }

  lemma FlatStep(parts: seq<Part>, rest: seq<Piece>)
    requires parts != []
    ensures match parts[0]
            case Bit(p) => Flat(parts) + rest == [p] + (Flat(parts[1..]) + rest)
            case Group(open, close, inner) =>
              Flat(parts) + rest == [One(open)] + (Flat(inner) + ([One(close)] + (Flat(parts[1..]) + rest)))
  {
    hide Flat;
    FlatFirst(parts);
    match parts[0]
    case Bit(p) => Regroup([p], [], [], Flat(parts[1..]), rest);
    case Group(open, close, inner) => Regroup([One(open)], Flat(inner), [One(close)], Flat(parts[1..]), rest);
  }

  lemma WrittenStep(p: Piece, rest: seq<Piece>)
    ensures Written([p] + rest) == PieceText(p) + Written(rest) && ([p] + rest)[1..] == rest
  {
    assert ([p] + rest)[1..] == rest;
  }

  lemma FlatNothing(parts: seq<Part>, rest: seq<Piece>)
    requires parts == []
    ensures Flat(parts) + rest == rest
  {
  }

  /** One byte of a value. */
  lemma BitRuns(css: Bytes, st: State, b: Byte, rest: seq<Piece>)
    requires Lie(css, st.pos, [One(b)] + rest) && Sourceless([One(b)] + rest)
    ensures st.pos < |css| && css[st.pos] == b && LexAt(css, st.pos) == Lexeme.Plain && Ascii(b)
    ensures SourceToken(css, st.pos) == Some(false) && Lie(css, st.pos + 1, rest) && Sourceless(rest)
  {
    hide Lie, Sourceless, SourceToken, LexAt;
    var pieces := [One(b)] + rest;
    LieRest(css, st.pos, pieces);
    OneLexes(css, st.pos, pieces);
    PieceToken(css, st.pos, pieces);
    SourcelessRest(pieces, 1);
    assert pieces[1..] == rest;
  }

  /** The parts of a value are read with the closer stack as before. */
  lemma {:induction false} PartsRun(css: Bytes, st: State, parts: seq<Part>, rest: seq<Piece>) returns (next: State)
    requires st.custom.Some? && st.content && PartsOk(parts)
    requires Lie(css, st.pos, Flat(parts) + rest) && Sourceless(Flat(parts) + rest)
    ensures Scan(css, st) == Scan(css, next) && next == st.(pos := next.pos)
    ensures Lie(css, next.pos, rest) && Sourceless(rest)
    ensures next.pos + |Written(rest)| == st.pos + |Written(Flat(parts) + rest)|
    decreases parts, 0
  {
    hide Lie, Sourceless, Scan, Round, SourceToken, LexAt, Closer, Calm, PieceText, Written, Flat;
    if parts == [] {
      FlatNothing(parts, rest);
      next := st;
    } else {
      FlatStep(parts, rest);
      assert PartOk(parts[0]);
      var tail := Flat(parts[1..]) + rest;
      match parts[0]
      case Bit(p) =>
        WrittenStep(p, tail);
        if p.One? {
          BitRuns(css, st, p.b, tail);
          OneText(p.b);
          ChRound(css, st);
        } else {
          LieRest(css, st.pos, [p] + tail);
          SourcelessRest([p] + tail, 1);
          LumpRound(css, st, p);
        }
        OneRound(css, st);
        next := PartsRun(css, Round(css, st).value, parts[1..], rest);
      case Group(open, close, inner) =>
        var after := GroupRuns(css, st, open, close, inner, tail);
        next := PartsRun(css, after, parts[1..], rest);
    }
  }

  lemma {:induction false} GroupRuns(css: Bytes, st: State, open: Byte, close: Byte, inner: seq<Part>, tail: seq<Piece>)
    returns (next: State)
    requires st.custom.Some? && st.content && Closer(open) == Some(close) && PartsOk(inner)
    requires var pieces := [One(open)] + (Flat(inner) + ([One(close)] + tail)); Lie(css, st.pos, pieces) && Sourceless(pieces)
    ensures Scan(css, st) == Scan(css, next) && next == st.(pos := next.pos)
    ensures Lie(css, next.pos, tail) && Sourceless(tail)
    ensures next.pos + |Written(tail)| == st.pos + |Written([One(open)] + (Flat(inner) + ([One(close)] + tail)))|
    decreases inner, 1
  {
    hide Lie, Sourceless, Scan, Round, SourceToken, LexAt, PieceText, Written, Flat;
    var closers := st.custom.value;
    var more := [One(close)] + tail;
    BitRuns(css, st, open, Flat(inner) + more);
    WrittenStep(One(open), Flat(inner) + more);
    OneText(open);
    OpenRound(css, st);
    OneRound(css, st);
    var inside := st.(pos := st.pos + 1, custom := Some(closers + [close]));
    var last := PartsRun(css, inside, inner, more);
    BitRuns(css, last, close, tail);
    WrittenStep(One(close), tail);
    OneText(close);
    CloseRound(css, last, closers);
    OneRound(css, last);
    next := last.(pos := last.pos + 1, custom := Some(closers));
  }
}
