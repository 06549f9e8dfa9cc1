/** Sheets written by the rules are accepted, and yield exactly the imports, source directories and root imports they
    contain, in order. */
module TailwindAccepts {
  import opened Wrappers
  import opened TailwindLex
  import opened TailwindSpec
  import opened TailwindSources
  import opened TailwindNesting
  import opened TailwindPieces
  import opened TailwindWords

  // ---------- sheets ----------

  datatype Stmt =
    | Space(b: Byte)
    | LineEnd
    | Note(remark: Bytes)
    | Import(quote: Byte, path: Bytes, before: Bytes, after: Bytes)
    | Root(quote: Byte, before: Bytes, after: Bytes)
    | Source(quote: Byte, path: Bytes, before: Bytes, after: Bytes)
    | Plain(text: seq<Piece>)
    | Rule(name: Bytes, text: seq<Piece>)
    | Custom(parts: seq<Part>)
    | Block(head: seq<Piece>, body: seq<Stmt>)
    | RuleBlock(name: Bytes, head: seq<Piece>, body: seq<Stmt>)

  function AtText(keyword: Bytes, before: Bytes, argument: Bytes, after: Bytes): Bytes {
    [AT] + keyword + before + argument + after + [SEMICOLON]
  }

  function Spelled(x: Stmt): Bytes
    decreases x
  {
    match x
    case Space(b) => [b]
    case LineEnd => [RETURN, NEWLINE]
    case Note(text) => PieceText(Remark(text))
    case Import(quote, path, before, after) => AtText(Lit("import"), before, [quote] + path + [quote], after)
    case Root(quote, before, after) =>
      AtText(Lit("import"), before, [quote] + Lit("tailwindcss") + [quote] + Lit(" source(none)"), after)
    case Source(quote, path, before, after) => AtText(Lit("source"), before, [quote] + path + [quote], after)
    case Plain(text) => Written(text) + [SEMICOLON]
    case Rule(name, text) => [AT] + name + Written(text) + [SEMICOLON]
    case Custom(parts) => Lit("--") + Written(Flat(parts)) + [SEMICOLON]
    case Block(head, body) => Written(head) + [OPEN_BRACE] + Sheet(body) + [CLOSE_BRACE]
    case RuleBlock(name, head, body) => [AT] + name + Written(head) + [OPEN_BRACE] + Sheet(body) + [CLOSE_BRACE]
  }

  function Sheet(xs: seq<Stmt>): Bytes
    decreases xs
  {
    if xs == [] then [] else Spelled(xs[0]) + Sheet(xs[1..])
  }

  // ---------- the rules for writing them ----------

  predicate Gap(text: Bytes) {
    forall i :: 0 <= i < |text| ==>
      text[i] == SPACE || text[i] == TAB || text[i] == NEWLINE || text[i] == RETURN || text[i] == FORM_FEED
  }

  /** Begins with a space, a tab or a line end. */
  predicate Apart(text: Bytes) {
    && text != []
    && (text[0] == SPACE || text[0] == TAB || text[0] == NEWLINE || (|text| > 1 && text[0] == RETURN && text[1] == NEWLINE))
  }

  /** A literal: not empty, no quote, backslash or line end inside. */
  predicate Literal(quote: Byte, path: Bytes) {
    && (quote == SINGLE_QUOTE || quote == DOUBLE_QUOTE) && path != []
    && forall i :: 0 <= i < |path| ==>
         path[i] != SINGLE_QUOTE && path[i] != DOUBLE_QUOTE && path[i] != BACKSLASH && path[i] != NEWLINE && path[i] != RETURN
  }

  predicate StartsRelative(path: Bytes) {
    Lit("./") <= path || Lit("../") <= path
  }

  /** The file name, after the last slash, is something and `.css`. */
  predicate NamesCss(path: Bytes) {
    exists n :: 0 <= n < |path| - 4 && (n > 0 ==> path[n - 1] == SLASH) && SLASH !in path[n..] && path[|path| - 4..] == Lit(".css")
  }

  /** A rule name that is followed by something that cannot belong to it. */
  predicate RuleHead(name: Bytes, text: seq<Piece>) {
    && AllowedRule(name) && name != Lit("import") && name != Lit("source") && CalmText(text)
    && (text == [] || (!text[0].Remark? && (text[0].One? ==> Parted(text[0].b))))
  }

  /** Cannot belong to a rule name, nor begin a comment. */
  predicate Parted(b: Byte) {
    !Letter(b) && !Digit(b) && b != HYPHEN && b != UNDERSCORE && b != SLASH
  }

  predicate StmtOk(x: Stmt, depth: nat)
    decreases x
  {
    match x
    case Space(b) => b == SPACE || b == TAB || b == NEWLINE
    case LineEnd => true
    case Note(text) => PieceOk(Remark(text))
    case Import(quote, path, before, after) =>
      Gap(before) && Apart(before) && Gap(after) && Literal(quote, path) && StartsRelative(path) && NamesCss(path)
    case Root(quote, before, after) =>
      Gap(before) && Apart(before) && Gap(after) && depth == 0 && (quote == SINGLE_QUOTE || quote == DOUBLE_QUOTE)
    case Source(quote, path, before, after) =>
      && Gap(before) && Apart(before) && Gap(after) && depth == 0 && Literal(quote, path) && StartsRelative(path)
      && forall i :: 0 <= i < |path| ==> path[i] !in Lit("*?[]{},!()\\")
    case Plain(text) => CalmText(text) && Begins(text)
    case Rule(name, text) => RuleHead(name, text)
    case Custom(parts) => PartsOk(parts) && PiecesOk(Flat(parts)) && Sourceless(Flat(parts))
    case Block(head, body) => CalmText(head) && Begins(head) && SheetOk(body, depth + 1)
    case RuleBlock(name, head, body) => RuleHead(name, head) && SheetOk(body, depth + 1)
  }

  predicate SheetOk(xs: seq<Stmt>, depth: nat)
    decreases xs
  {
    forall i :: 0 <= i < |xs| ==> StmtOk(xs[i], depth)
  }

  // ---------- what they contain ----------

  function Join(a: Directives, b: Directives): Directives {
    Directives(a.imports + b.imports, a.sources + b.sources, a.roots + b.roots)
  }

  const NOTHING := Directives([], [], 0)

  function Holds(x: Stmt): Directives
    decreases x
  {
    match x
    case Import(_, path, _, _) => Directives([path], [], 0)
    case Root(_, _, _) => Directives([], [], 1)
    case Source(_, path, _, _) => Directives([], [path], 0)
    case Block(_, body) => SheetHolds(body)
    case RuleBlock(_, _, body) => SheetHolds(body)
    case _ => NOTHING
  }

  function SheetHolds(xs: seq<Stmt>): Directives
    decreases xs
  {
    if xs == [] then NOTHING else Join(Holds(xs[0]), SheetHolds(xs[1..]))
  }

  // ---------- scanning ----------

  /** Ready for a statement. */
  predicate Ready(st: State) {
    !st.content && st.paren == 0 && st.custom.None?
  }

  lemma DullToken(css: Bytes, i: nat)
    requires i < |css| && Lower(css[i]) != SOURCE[0]
    ensures SourceToken(css, i) == Some(false)
  {
  }

  /** The round at a plain byte outside values that is none of the text's. */
  lemma MarkRound(css: Bytes, st: State)
    requires st.pos < |css| && st.custom.None? && st.paren == 0
    requires var b := css[st.pos];
             || b == SEMICOLON || b == OPEN_BRACE || (b == CLOSE_BRACE && st.depth > 0)
             || (BlankAt(css, st.pos) && !st.content)
    ensures var b := css[st.pos];
            Round(css, st) == Some(st.(pos := st.pos + 1, content := false,
              depth := if b == OPEN_BRACE then st.depth + 1 else if b == CLOSE_BRACE then st.depth - 1 else st.depth))
  {
    DullToken(css, st.pos);
    hide SourceToken, AtRule;
    QuietIsPlain(css, st.pos);
  }

  // ---------- custom property values ----------

  lemma HyphensRound(css: Bytes, st: State)
    requires Ready(st) && At(css, st.pos, HYPHEN) && At(css, st.pos + 1, HYPHEN)
    ensures Round(css, st) == Some(st.(pos := st.pos + 2, content := true, custom := Some([])))
  {
    DullToken(css, st.pos);
    hide SourceToken, AtRule;
    QuietIsPlain(css, st.pos);
  }

  lemma ValueEndRound(css: Bytes, st: State)
    requires At(css, st.pos, SEMICOLON) && st.custom == Some([])
    ensures Round(css, st) == Some(st.(pos := st.pos + 1, content := false, custom := None))
  {
    DullToken(css, st.pos);
    hide SourceToken;
    QuietIsPlain(css, st.pos);
  }

  lemma CustomRuns(css: Bytes, st: State, parts: seq<Part>)
    requires Ready(st) && StmtOk(Custom(parts), st.depth) && Stands(css, st.pos, Spelled(Custom(parts)))
    ensures Scan(css, st) == Scan(css, st.(pos := st.pos + |Spelled(Custom(parts))|))
  {
    hide Scan, Round, SourceToken, PartsOk, PiecesOk, Sourceless, Written, Flat;
    var hyphens, text := Lit("--"), Written(Flat(parts));
    assert hyphens == [HYPHEN, HYPHEN];
    StandsParts(css, st.pos, hyphens + text, [SEMICOLON]);
    StandsParts(css, st.pos, hyphens, text);
    StandsAt(css, st.pos, hyphens, 0);
    StandsAt(css, st.pos, hyphens, 1);
    var stop := st.pos + 2 + |text|;
    StandsAt(css, stop, [SEMICOLON], 0);
    HyphensRound(css, st);
    OneRound(css, st);
    var inside := st.(pos := st.pos + 2, content := true, custom := Some([]));
    var none: seq<Piece> := [];
    assert Flat(parts) + none == Flat(parts);
    var last := PartsRun(css, inside, parts, none);
    NothingWritten();
    ValueEndRound(css, last);
    OneRound(css, last);
  }

  // ---------- rules ----------

  lemma {:induction false} NameEndAt(css: Bytes, pos: nat, end: nat)
    requires pos <= end <= |css| && (forall j :: pos <= j < end ==> Letter(css[j]) || css[j] == HYPHEN)
    requires end < |css| ==> !Letter(css[end]) && css[end] != HYPHEN
    ensures NameEnd(css, pos) == end
    decreases end - pos
  {
    if pos < end {
      NameEndAt(css, pos + 1, end);
    }
  }

  /** An allowed name in front of a byte that ends it is read as that rule. */
  lemma NameIsRead(css: Bytes, from: nat, name: Bytes)
    requires AllowedRule(name) && Stands(css, from, name) && from + |name| < |css|
    requires Parted(css[from + |name|])
    ensures RuleEnd(css, from) == Some(from + |name|)
  {
    hide AllowedRule, MiscasedRule;
    AllowedNameBytes(name);
    var end := from + |name|;
    forall j | from <= j < end
      ensures (Letter(css[j]) || css[j] == HYPHEN) && Ascii(css[j])
    {
      StandsAt(css, from, name, j - from);
    }
    NameEndAt(css, from, end);
    assert css[from..end] == name;
  }

  lemma AtRoundIs(css: Bytes, st: State)
    requires st.pos < |css| && css[st.pos] == AT && st.custom.None?
    ensures Round(css, st) == AtRule(css, st)
  {
    DullToken(css, st.pos);
    hide SourceToken, AtRule;
    QuietIsPlain(css, st.pos);
  }

  predicate OtherRule(name: Bytes) {
    AllowedRule(name) && name != IMPORT && name != SOURCE_RULE
  }

  /** `@name`, for a rule that is no import or source, raises the flag. */
  lemma NameRuns(css: Bytes, st: State, name: Bytes)
    requires st.custom.None? && OtherRule(name)
    requires Stands(css, st.pos, [AT] + name) && st.pos + 1 + |name| < |css|
    requires Parted(css[st.pos + 1 + |name|])
    ensures Scan(css, st) == Scan(css, st.(pos := st.pos + 1 + |name|, content := true))
  {
    hide Scan, AllowedRule, RuleEnd;
    StandsParts(css, st.pos, [AT], name);
    StandsAt(css, st.pos, [AT], 0);
    NameIsRead(css, st.pos + 1, name);
    AtRoundIs(css, st);
    assert css[st.pos + 1..st.pos + 1 + |name|] == name;
    hide Round;
    OneRound(css, st);
  }

  /** `@name text` in front of a semicolon or an opening brace. */
  lemma RuleHeadRuns(css: Bytes, st: State, name: Bytes, text: seq<Piece>)
    requires Ready(st) && RuleHead(name, text) && Stands(css, st.pos, [AT] + name + Written(text))
    requires var stop := st.pos + 1 + |name| + |Written(text)|;
             stop < |css| && (css[stop] == SEMICOLON || css[stop] == OPEN_BRACE)
    ensures Scan(css, st) == Scan(css, st.(pos := st.pos + 1 + |name| + |Written(text)|, content := true))
  {
    hide Scan, RuleHead, Written, Stands;
    RuleHeadMeans(name, text);
    StandsParts(css, st.pos, [AT] + name, Written(text));
    NameThenText(css, st, name, text, st.pos + 1 + |name|);
  }

  lemma NameThenText(css: Bytes, st: State, name: Bytes, text: seq<Piece>, end: nat)
    requires Ready(st) && OtherRule(name) && CalmText(text) && (text != [] ==> Written(text) != [] && Parted(Written(text)[0]))
    requires end == st.pos + 1 + |name| && Stands(css, st.pos, [AT] + name) && Stands(css, end, Written(text))
    requires var stop := end + |Written(text)|; stop < |css| && (css[stop] == SEMICOLON || css[stop] == OPEN_BRACE)
    ensures Scan(css, st) == Scan(css, st.(pos := end + |Written(text)|, content := true))
  {
    hide *;
    PartedBehind(css, end, text);
    NameFirst(css, st, name, end);
    TextThen(css, st, text, end);
  }

  lemma NameFirst(css: Bytes, st: State, name: Bytes, end: nat)
    requires Ready(st) && OtherRule(name)
    requires end == st.pos + 1 + |name| && Stands(css, st.pos, [AT] + name) && end < |css| && Parted(css[end])
    ensures Scan(css, st) == Scan(css, st.(pos := end, content := true))
  {
    assert st.custom.None?;
    hide *;
    NameRuns(css, st, name);
  }

  lemma TextThen(css: Bytes, st: State, text: seq<Piece>, end: nat)
    requires Ready(st) && CalmText(text) && Stands(css, end, Written(text))
    requires var stop := end + |Written(text)|; stop < |css| && (css[stop] == SEMICOLON || css[stop] == OPEN_BRACE)
    ensures Scan(css, st.(pos := end, content := true)) == Scan(css, st.(pos := end + |Written(text)|, content := true))
  {
    assert st.paren == 0 && st.custom.None?;
    hide *;
    CalmTextRuns(css, st.(pos := end, content := true), text);
  }

  lemma PartedBehind(css: Bytes, end: nat, text: seq<Piece>)
    requires Stands(css, end, Written(text)) && (text != [] ==> Written(text) != [] && Parted(Written(text)[0]))
    requires var stop := end + |Written(text)|; stop < |css| && (css[stop] == SEMICOLON || css[stop] == OPEN_BRACE)
    ensures end < |css| && Parted(css[end])
  {
    hide Written;
    NothingWritten();
    if text != [] { StandsAt(css, end, Written(text), 0); }
  }

  lemma RuleHeadMeans(name: Bytes, text: seq<Piece>)
    requires RuleHead(name, text)
    ensures OtherRule(name) && CalmText(text)
    ensures text != [] ==> Written(text) != [] && Parted(Written(text)[0])
  {
    hide AllowedRule, Level, Sourceless, Lit, Written, PieceText, Parted;
    GraphRulesRead();
    if text != [] {
      WrittenFirst(text);
      PartedFirst(text[0]);
    }
  }

  lemma PartedFirst(p: Piece)
    requires PieceOk(p) && !p.Remark? && (p.One? ==> Parted(p.b))
    ensures PieceText(p) != [] && Parted(PieceText(p)[0])
  {
  }

  // ---------- imports and sources ----------

  /** Bytes a statement is read past one by one. */
  predicate Passed(b: Byte) {
    Quiet(b) && Ascii(b) && b != SEMICOLON && b != OPEN_BRACE && b != CLOSE_BRACE
  }

  lemma {:induction false} StatementPasses(css: Bytes, lo: nat, hi: nat)
    requires lo <= hi <= |css| && forall j :: lo <= j < hi ==> Passed(css[j])
    ensures StatementEnd(css, lo) == StatementEnd(css, hi)
    decreases hi - lo
  {
    hide LexAt;
    if lo < hi {
      QuietIsPlain(css, lo);
      StatementPasses(css, lo + 1, hi);
    }
  }

  lemma {:induction false} NoSourcePasses(css: Bytes, lo: nat, hi: nat, end: nat)
    requires lo <= hi <= end <= |css| && forall j :: lo <= j < hi ==> Quiet(css[j]) && Lower(css[j]) != SOURCE[0]
    ensures NoSourceIn(css, lo, end) == NoSourceIn(css, hi, end)
    decreases hi - lo
  {
    hide LexAt, SourceToken;
    if lo < hi {
      QuietIsPlain(css, lo);
      DullToken(css, lo);
      NoSourcePasses(css, lo + 1, hi, end);
    }
  }

  lemma {:induction false} FrontIs(text: Bytes, i: nat, lo: nat)
    requires i <= lo < |text| && (forall k :: i <= k < lo ==> Trimmable(text[k])) && !Trimmable(text[lo])
    ensures TrimFront(text, i) == lo
    decreases lo - i
  {
    if i < lo { FrontIs(text, i + 1, lo); }
  }

  lemma {:induction false} BackIs(text: Bytes, lo: nat, hi: nat, j: nat)
    requires lo < hi <= j <= |text| && (forall k :: hi <= k < j ==> Trimmable(text[k])) && !Trimmable(text[hi - 1])
    ensures TrimBack(text, lo, j) == hi
    decreases j
  {
    if hi < j { BackIs(text, lo, hi, j - 1); }
  }

  lemma TrimIs(before: Bytes, argument: Bytes, after: Bytes)
    requires Gap(before) && Gap(after) && argument != []
    requires !Trimmable(argument[0]) && !Trimmable(argument[|argument| - 1])
    ensures Trim(before + argument + after) == argument
  {
    var text := before + argument + after;
    assert forall k :: 0 <= k < |before| ==> text[k] == before[k];
    assert forall k :: 0 <= k < |after| ==> text[|before| + |argument| + k] == after[k];
    forall k | |before| + |argument| <= k < |text|
      ensures Trimmable(text[k])
    {
      assert text[k] == after[k - |before| - |argument|];
    }
    FrontIs(text, 0, |before|);
    BackIs(text, |before|, |before| + |argument|, |text|);
    assert text[|before|..|before| + |argument|] == argument;
  }

  lemma LiteralIs(quote: Byte, path: Bytes)
    requires Literal(quote, path)
    ensures QuotedOnly([quote] + path + [quote]) == Some(path)
  {
    var text := [quote] + path + [quote];
    assert Quote(quote);
    assert forall i :: 0 <= i < |path| ==> path[i] !in UNQUOTABLE;
    QuotedOnlyIsLiteral(text, path);
  }

  lemma LiteralLexes(css: Bytes, pos: nat, quote: Byte, path: Bytes)
    requires Literal(quote, path) && Stands(css, pos, [quote] + path + [quote])
    ensures LexAt(css, pos) == Text(pos + |path| + 2)
  {
    var text := [quote] + path + [quote];
    StandsAt(css, pos, text, 0);
    StandsAt(css, pos, text, |path| + 1);
    forall j | pos + 1 <= j < pos + 1 + |path|
      ensures css[j] != BACKSLASH && css[j] != quote
    {
      StandsAt(css, pos, text, j - pos);
      assert text[j - pos] == path[j - pos - 1];
    }
    StringEndAt(css, quote, pos + 1, pos + 1 + |path|);
  }

  lemma TextEndsStatement(css: Bytes, pos: nat, e: nat)
    requires pos < |css| && LexAt(css, pos) == Text(e)
    ensures StatementEnd(css, pos) == StatementEnd(css, e)
    ensures forall end :: e <= end <= |css| ==> NoSourceIn(css, pos, end) == NoSourceIn(css, e, end)
  {
    assert css[pos] != SEMICOLON;
    hide LexAt;
  }

  lemma GapAt(css: Bytes, pos: nat, text: Bytes)
    requires Gap(text) && Stands(css, pos, text)
    ensures forall j :: pos <= j < pos + |text| ==> Passed(css[j]) && Lower(css[j]) != SOURCE[0]
  {
    forall j | pos <= j < pos + |text|
      ensures Passed(css[j]) && Lower(css[j]) != SOURCE[0]
    {
      StandsAt(css, pos, text, j - pos);
    }
  }

  /** An argument that is one literal: where its statement ends, and that no `source(` is in it. */
  lemma LiteralStatement(css: Bytes, pos: nat, before: Bytes, quote: Byte, path: Bytes, after: Bytes) returns (stop: nat)
    requires Gap(before) && Gap(after) && Literal(quote, path)
    requires Stands(css, pos, before + ([quote] + path + [quote]) + after + [SEMICOLON])
    ensures stop == pos + |before| + |path| + 2 + |after| < |css| && StatementEnd(css, pos) == Some(stop)
    ensures NoSourceIn(css, pos, stop) && Trim(css[pos..stop]) == [quote] + path + [quote]
  {
    hide StatementEnd, NoSourceIn, LexAt, Literal, Trim;
    var argument := [quote] + path + [quote];
    var start, end := pos + |before|, pos + |before| + |argument|;
    stop := end + |after|;
    Layout(css, pos, before, argument, after);
    GapAt(css, pos, before);
    GapAt(css, end, after);
    StatementPasses(css, pos, start);
    LiteralLexes(css, start, quote, path);
    TextEndsStatement(css, start, end);
    StatementPasses(css, end, stop);
    StopsAt(css, stop);
    NoSourcePasses(css, pos, start, stop);
    NoSourcePasses(css, end, stop, stop);
    QuotesStay(quote, path);
    TrimIs(before, argument, after);
  }

  lemma QuotesStay(quote: Byte, path: Bytes)
    requires Literal(quote, path)
    ensures !Trimmable(quote)
  {
  }

  lemma StopsAt(css: Bytes, stop: nat)
    requires At(css, stop, SEMICOLON)
    ensures StatementEnd(css, stop) == Some(stop) && NoSourceIn(css, stop, stop)
  {
  }

  lemma RelativeCssIs(path: Bytes)
    requires StartsRelative(path) && NamesCss(path)
    ensures RelativeCss(path) && path != [] && path[0] == DOT
  {
    hide CssExtension, Lit, StartsRelative, Relative;
    RelativeReads(path);
    StartsWithDot(path);
    var n :| 0 <= n < |path| - 4 && (n > 0 ==> path[n - 1] == SLASH) && SLASH !in path[n..] && path[|path| - 4..] == Lit(".css");
    NameIsCss(path, n);
    assert StartsRelative(path) ==> Relative(path) by { ReadsRelative(path); }
  }

  lemma ReadsRelative(path: Bytes)
    ensures StartsRelative(path) ==> Relative(path)
  {
    hide Lit;
    RelativeReads(path);
  }

  lemma NameIsCss(path: Bytes, n: nat)
    requires n < |path| - 4 && (n > 0 ==> path[n - 1] == SLASH) && SLASH !in path[n..]
    requires path[|path| - 4..] == Lit(".css")
    ensures CssExtension(path)
  {
    hide CssExtension, Lit;
    NameHasDot(path, n);
    var dir, name := path[..n], path[n..];
    assert path == dir + name;
    CssExtensionReads(dir, name);
  }

  lemma StartsWithDot(path: Bytes)
    requires StartsRelative(path)
    ensures path != [] && path[0] == DOT
  {
    assert Lit("./")[0] == DOT && Lit("../")[0] == DOT;
  }

  lemma NameHasDot(path: Bytes, n: nat)
    requires n < |path| - 4
    ensures var name := path[n..]; name[|name| - 4..] == path[|path| - 4..]
  {
    var name := path[n..];
    assert |name[|name| - 4..]| == |path[|path| - 4..]| == 4;
  }

  /** A relative path is no near miss of the root import. */
  lemma NoNearMiss(quote: Byte, path: Bytes)
    requires path != [] && path[0] == DOT
    ensures !NearMissRoot([quote] + path + [quote])
  {
    var argument := [quote] + path + [quote];
    assert argument[1 + 0] == DOT != TAILWIND[0];
  }

  /** The round at a well-placed `@import` or `@source` with an accepted argument. */
  lemma GraphRound(css: Bytes, st: State, keyword: Bytes, stop: nat, found: Directives)
    requires Ready(st) && (keyword == IMPORT || keyword == SOURCE_RULE) && AllowedRule(keyword)
    requires Stands(css, st.pos, [AT] + keyword)
    requires var end := st.pos + 1 + |keyword|;
             && end < |css| && BlankAt(css, end)
             && StatementEnd(css, end) == Some(stop)
             && Statement(css, st, keyword, end, stop) == Some(found)
    ensures Scan(css, st) == Scan(css, st.(pos := stop + 1, found := found))
  {
    hide Scan, AllowedRule, RuleEnd, StatementEnd, Statement;
    StandsParts(css, st.pos, [AT], keyword);
    StandsAt(css, st.pos, [AT], 0);
    NameIsRead(css, st.pos + 1, keyword);
    AtRoundIs(css, st);
    assert css[st.pos + 1..st.pos + 1 + |keyword|] == keyword;
    hide Round;
    OneRound(css, st);
  }

  lemma KeywordsAllowed()
    ensures AllowedRule(IMPORT) && AllowedRule(SOURCE_RULE)
    ensures IMPORT == Lit("import") && SOURCE_RULE == Lit("source") && IMPORT != SOURCE_RULE
  {
    hide Lit;
    GraphRulesRead();
    AllowedRulesRead(IMPORT);
    AllowedRulesRead(SOURCE_RULE);
    assert IMPORT[0] != SOURCE_RULE[0];
  }

  lemma GapBegins(css: Bytes, pos: nat, before: Bytes, rest: Bytes)
    requires Gap(before) && Apart(before) && Stands(css, pos, before + rest)
    ensures pos < |css| && BlankAt(css, pos)
  {
    StandsParts(css, pos, before, rest);
    StandsAt(css, pos, before, 0);
    if |before| > 1 { StandsAt(css, pos, before, 1); }
  }

  /** `@keyword` in front of its argument. */
  lemma KeywordStands(css: Bytes, pos: nat, keyword: Bytes, before: Bytes, argument: Bytes, after: Bytes)
    requires Gap(before) && Apart(before) && Stands(css, pos, AtText(keyword, before, argument, after))
    ensures var end := pos + 1 + |keyword|;
            && Stands(css, pos, [AT] + keyword) && Stands(css, end, before + argument + after + [SEMICOLON])
            && end < |css| && BlankAt(css, end)
    ensures |AtText(keyword, before, argument, after)| == 1 + |keyword| + |before| + |argument| + |after| + 1
  {
    var rest := before + argument + after + [SEMICOLON];
    assert AtText(keyword, before, argument, after) == ([AT] + keyword) + rest;
    StandsParts(css, pos, [AT] + keyword, rest);
    assert rest == before + (argument + after + [SEMICOLON]);
    GapBegins(css, pos + 1 + |keyword|, before, argument + after + [SEMICOLON]);
  }

  /** A graph rule whose statement is accepted is read to behind its semicolon. */
  lemma StatementRuns(css: Bytes, st: State, keyword: Bytes, before: Bytes, argument: Bytes, after: Bytes, stop: nat, found: Directives)
    requires Ready(st) && (keyword == IMPORT || keyword == SOURCE_RULE) && AllowedRule(keyword)
    requires Gap(before) && Apart(before) && Stands(css, st.pos, AtText(keyword, before, argument, after))
    requires var end := st.pos + 1 + |keyword|;
             && stop == end + |before| + |argument| + |after| < |css| && StatementEnd(css, end) == Some(stop)
             && Statement(css, st, keyword, end, stop) == Some(found)
    ensures Scan(css, st) == Scan(css, st.(pos := st.pos + |AtText(keyword, before, argument, after)|, found := found))
  {
    hide Scan, StatementEnd, Statement, AllowedRule, Stands, AtText, Gap;
    KeywordStands(css, st.pos, keyword, before, argument, after);
    GraphRound(css, st, keyword, stop, found);
  }

  lemma JoinReads(found: Directives, path: Bytes)
    ensures Join(found, Directives([path], [], 0)) == found.(imports := found.imports + [path])
    ensures Join(found, Directives([], [path], 0)) == found.(sources := found.sources + [path])
    ensures Join(found, Directives([], [], 1)) == found.(roots := found.roots + 1)
    ensures Join(found, NOTHING) == found
  {
    assert found.imports + [] == found.imports && found.sources + [] == found.sources;
  }

  lemma ImportAdds(css: Bytes, st: State, from: nat, stop: nat, argument: Bytes, path: Bytes)
    requires from <= stop <= |css| && Trim(css[from..stop]) == argument && !NearMissRoot(argument)
    requires NoSourceIn(css, from, stop) && QuotedOnly(argument) == Some(path) && RelativeCss(path)
    ensures Statement(css, st, IMPORT, from, stop) == Some(st.found.(imports := st.found.imports + [path]))
  {
    hide Trim, NoSourceIn, QuotedOnly, RelativeCss, NearMissRoot;
  }

  lemma RootAdds(css: Bytes, st: State, from: nat, stop: nat, argument: Bytes)
    requires from <= stop <= |css| && Trim(css[from..stop]) == argument && RootForm(argument)
    requires st.depth == 0 && st.paren == 0
    ensures Statement(css, st, IMPORT, from, stop) == Some(st.found.(roots := st.found.roots + 1))
  {
    hide Trim, RootForm;
  }

  predicate Quoted(argument: Bytes, quote: Byte, path: Bytes) {
    argument == [quote] + path + [quote]
  }

  lemma QuotedStatement(css: Bytes, pos: nat, before: Bytes, argument: Bytes, quote: Byte, path: Bytes, after: Bytes)
    returns (stop: nat)
    requires Gap(before) && Gap(after) && Literal(quote, path) && Quoted(argument, quote, path)
    requires Stands(css, pos, before + argument + after + [SEMICOLON])
    ensures stop == pos + |before| + |argument| + |after| < |css| && StatementEnd(css, pos) == Some(stop)
    ensures NoSourceIn(css, pos, stop) && Trim(css[pos..stop]) == argument && QuotedOnly(argument) == Some(path)
  {
    assert |argument| == |path| + 2;
    LiteralIs(quote, path);
    hide StatementEnd, NoSourceIn, Trim, Literal, QuotedOnly, Gap, Stands;
    stop := LiteralStatement(css, pos, before, quote, path, after);
  }

  lemma QuotedIsNoRoot(argument: Bytes, quote: Byte, path: Bytes)
    requires Quoted(argument, quote, path) && path != [] && path[0] == DOT
    ensures !NearMissRoot(argument)
  {
    NoNearMiss(quote, path);
  }

  lemma ImportReads(css: Bytes, st: State, keyword: Bytes, quote: Byte, path: Bytes, before: Bytes, argument: Bytes, after: Bytes)
    requires keyword == IMPORT && AllowedRule(keyword) && Ready(st) && Quoted(argument, quote, path)
    requires Gap(before) && Apart(before) && Gap(after) && Literal(quote, path) && RelativeCss(path)
    requires path != [] && path[0] == DOT
    requires Stands(css, st.pos, AtText(keyword, before, argument, after))
    ensures Scan(css, st)
         == Scan(css, st.(pos := st.pos + |AtText(keyword, before, argument, after)|,
                          found := st.found.(imports := st.found.imports + [path])))
  {
    assert path != [];
    hide *;
    KeywordStands(css, st.pos, keyword, before, argument, after);
    var end := st.pos + 1 + |keyword|;
    var stop := QuotedStatement(css, end, before, argument, quote, path, after);
    var found := st.found.(imports := st.found.imports + [path]);
    QuotedIsNoRoot(argument, quote, path);
    ImportAdds(css, st, end, stop, argument, path);
    StatementRuns(css, st, keyword, before, argument, after, stop, found);
  }

  lemma GraphSpelled(x: Stmt) returns (keyword: Bytes, argument: Bytes)
    requires x.Import? || x.Root? || x.Source?
    ensures keyword == (if x.Source? then SOURCE_RULE else IMPORT) && AllowedRule(keyword)
    ensures if x.Root? then argument == [x.quote] + Lit("tailwindcss") + [x.quote] + Lit(" source(none)")
            else Quoted(argument, x.quote, x.path)
    ensures Spelled(x) == AtText(keyword, x.before, argument, x.after)
  {
    hide Lit, AllowedRule, AtText;
    KeywordsAllowed();
    keyword := if x.Source? then SOURCE_RULE else IMPORT;
    argument := if x.Root? then [x.quote] + Lit("tailwindcss") + [x.quote] + Lit(" source(none)")
                else [x.quote] + x.path + [x.quote];
  }

  lemma ImportIsOk(x: Stmt, depth: nat)
    requires x.Import? && StmtOk(x, depth)
    ensures Gap(x.before) && Apart(x.before) && Gap(x.after) && Literal(x.quote, x.path)
    ensures RelativeCss(x.path) && x.path != [] && x.path[0] == DOT && Holds(x) == Directives([x.path], [], 0)
  {
    RelativeCssIs(x.path);
    hide Gap, Literal, RelativeCss, NamesCss, StartsRelative;
  }

  lemma ImportRuns(css: Bytes, st: State, x: Stmt)
    requires Ready(st) && x.Import? && StmtOk(x, st.depth) && Stands(css, st.pos, Spelled(x))
    ensures Scan(css, st) == Scan(css, st.(pos := st.pos + |Spelled(x)|, found := Join(st.found, Holds(x))))
  {
    hide *;
    ImportIsOk(x, st.depth);
    var keyword, argument := GraphSpelled(x);
    ImportReads(css, st, keyword, x.quote, x.path, x.before, argument, x.after);
    JoinReads(st.found, x.path);
  }

  lemma SourceAdds(css: Bytes, st: State, from: nat, stop: nat, argument: Bytes, path: Bytes)
    requires from <= stop <= |css| && Trim(css[from..stop]) == argument && st.depth == 0
    requires NoSourceIn(css, from, stop) && SourcePath(argument) == Some(path)
    ensures Statement(css, st, SOURCE_RULE, from, stop) == Some(st.found.(sources := st.found.sources + [path]))
  {
    hide Trim, NoSourceIn, SourcePath;
    assert SOURCE_RULE[0] != IMPORT[0];
  }

  lemma SourceReads(css: Bytes, st: State, keyword: Bytes, quote: Byte, path: Bytes, before: Bytes, argument: Bytes, after: Bytes)
    requires keyword == SOURCE_RULE && AllowedRule(keyword) && Ready(st) && st.depth == 0 && Quoted(argument, quote, path)
    requires Gap(before) && Apart(before) && Gap(after) && Literal(quote, path) && SourcePath(argument) == Some(path)
    requires Stands(css, st.pos, AtText(keyword, before, argument, after))
    ensures Scan(css, st)
         == Scan(css, st.(pos := st.pos + |AtText(keyword, before, argument, after)|,
                          found := st.found.(sources := st.found.sources + [path])))
  {
    hide *;
    KeywordStands(css, st.pos, keyword, before, argument, after);
    var end := st.pos + 1 + |keyword|;
    var stop := QuotedStatement(css, end, before, argument, quote, path, after);
    var found := st.found.(sources := st.found.sources + [path]);
    SourceAdds(css, st, end, stop, argument, path);
    StatementRuns(css, st, keyword, before, argument, after, stop, found);
  }

  lemma SourceIsOk(x: Stmt, depth: nat)
    requires x.Source? && StmtOk(x, depth)
    ensures Gap(x.before) && Apart(x.before) && Gap(x.after) && depth == 0 && Literal(x.quote, x.path) && StmtOk(x, 0)
    ensures Holds(x) == Directives([], [x.path], 0)
  {
    hide Gap, Literal, StartsRelative, Lit;
  }

  lemma SourceRuns(css: Bytes, st: State, x: Stmt)
    requires Ready(st) && x.Source? && StmtOk(x, st.depth) && Stands(css, st.pos, Spelled(x))
    ensures Scan(css, st) == Scan(css, st.(pos := st.pos + |Spelled(x)|, found := Join(st.found, Holds(x))))
  {
    hide *;
    SourceIsOk(x, st.depth);
    var keyword, argument := GraphSpelled(x);
    SourcePathIs(x, argument);
    SourceReads(css, st, keyword, x.quote, x.path, x.before, argument, x.after);
    JoinReads(st.found, x.path);
  }

  lemma SourcePathIs(x: Stmt, argument: Bytes)
    requires x.Source? && StmtOk(x, 0) && Quoted(argument, x.quote, x.path)
    ensures SourcePath(argument) == Some(x.path)
  {
    hide QuotedOnly;
    LiteralIs(x.quote, x.path);
    RelativeReads(x.path);
    RefusedCharactersRead();
    hide Lit;
    forall i | 0 <= i < |argument|
      ensures argument[i] !in GLOBS
    {
      if 0 < i < |argument| - 1 { assert argument[i] == x.path[i - 1]; }
    }
  }

  // ---------- the root import ----------

  /** Where the parts of a statement stand. */
  lemma Layout(css: Bytes, pos: nat, before: Bytes, argument: Bytes, after: Bytes)
    requires Stands(css, pos, before + argument + after + [SEMICOLON])
    ensures var start := pos + |before|;
            var stop := start + |argument| + |after|;
            && stop < |css| && css[stop] == SEMICOLON && css[pos..stop] == before + argument + after
            && Stands(css, pos, before) && Stands(css, start, argument) && Stands(css, start + |argument|, after)
  {
    StandsParts(css, pos, before + argument + after, [SEMICOLON]);
    StandsParts(css, pos, before + argument, after);
    StandsParts(css, pos, before, argument);
    StandsAt(css, pos + |before| + |argument| + |after|, [SEMICOLON], 0);
  }

  /** What the scanner asks of the argument of a root import. */
  predicate RootText(quote: Byte, argument: Bytes) {
    && |argument| == 26 && RootForm(argument) && !Trimmable(argument[0]) && !Trimmable(argument[25])
    && argument[..13] == [quote] + argument[1..12] + [quote] && Literal(quote, argument[1..12])
    && forall i :: 13 <= i < 26 ==> Passed(argument[i])
  }

  lemma RootTextIs(quote: Byte) returns (argument: Bytes)
    requires quote == SINGLE_QUOTE || quote == DOUBLE_QUOTE
    ensures argument == [quote] + Lit("tailwindcss") + [quote] + Lit(" source(none)") && RootText(quote, argument)
  {
    var word, none := Lit("tailwindcss"), Lit(" source(none)");
    argument := [quote] + word + [quote] + none;
    RootFormReads(argument);
    RootWordsRead(quote);
    assert argument[1..12] == word && argument[13..] == none && argument[0] == quote && argument[25] == none[12];
    assert argument[..13] == [quote] + word + [quote];
    forall i | 13 <= i < 26
      ensures Passed(argument[i])
    {
      assert argument[i] == none[i - 13];
    }
  }

  lemma RootWordsRead(quote: Byte)
    requires quote == SINGLE_QUOTE || quote == DOUBLE_QUOTE
    ensures var word, none := Lit("tailwindcss"), Lit(" source(none)");
            && |word| == 11 && |none| == 13 && Literal(quote, word) && !Trimmable(quote)
            && (forall i :: 0 <= i < 13 ==> Passed(none[i])) && !Trimmable(none[12])
  {
    assert Lit("tailwindcss") == TAILWIND && Lit(" source(none)") == SOURCE_NONE;
  }

  lemma RootStatement(css: Bytes, pos: nat, before: Bytes, quote: Byte, argument: Bytes, after: Bytes) returns (stop: nat)
    requires Gap(before) && Gap(after) && RootText(quote, argument)
    requires Stands(css, pos, before + argument + after + [SEMICOLON])
    ensures stop == pos + |before| + 26 + |after| < |css| && StatementEnd(css, pos) == Some(stop)
    ensures Trim(css[pos..stop]) == argument && RootForm(argument)
  {
    hide StatementEnd, Literal, Trim, Stands, Gap, RootForm;
    stop := pos + |before| + 26 + |after|;
    Layout(css, pos, before, argument, after);
    GapAt(css, pos, before);
    GapAt(css, pos + |before| + 26, after);
    RootArgument(css, pos + |before|, quote, argument);
    StatementPasses(css, pos, pos + |before|);
    StatementPasses(css, pos + |before| + 26, stop);
    StopsAt(css, stop);
    TrimIs(before, argument, after);
  }

  lemma RootArgument(css: Bytes, start: nat, quote: Byte, argument: Bytes)
    requires RootText(quote, argument) && Stands(css, start, argument)
    ensures StatementEnd(css, start) == StatementEnd(css, start + 26)
  {
    hide StatementEnd, Literal, RootForm;
    var word := argument[1..12];
    assert argument == ([quote] + word + [quote]) + argument[13..];
    StandsParts(css, start, [quote] + word + [quote], argument[13..]);
    LiteralLexes(css, start, quote, word);
    TextEndsStatement(css, start, start + 13);
    forall j | start + 13 <= j < start + 26
      ensures Passed(css[j])
    {
      StandsAt(css, start, argument, j - start);
    }
    StatementPasses(css, start + 13, start + 26);
  }

  lemma RootReads(css: Bytes, st: State, keyword: Bytes, quote: Byte, before: Bytes, argument: Bytes, after: Bytes)
    requires keyword == IMPORT && AllowedRule(keyword) && Ready(st) && st.depth == 0
    requires Gap(before) && Apart(before) && Gap(after) && RootText(quote, argument)
    requires Stands(css, st.pos, AtText(keyword, before, argument, after))
    ensures Scan(css, st)
         == Scan(css, st.(pos := st.pos + |AtText(keyword, before, argument, after)|, found := st.found.(roots := st.found.roots + 1)))
  {
    assert |argument| == 26 && st.paren == 0;
    hide *;
    KeywordStands(css, st.pos, keyword, before, argument, after);
    var end := st.pos + 1 + |keyword|;
    var stop := RootStatement(css, end, before, quote, argument, after);
    var found := st.found.(roots := st.found.roots + 1);
    RootAdds(css, st, end, stop, argument);
    StatementRuns(css, st, keyword, before, argument, after, stop, found);
  }

  lemma RootIsOk(x: Stmt, depth: nat)
    requires x.Root? && StmtOk(x, depth)
    ensures Gap(x.before) && Apart(x.before) && Gap(x.after) && depth == 0 && Holds(x) == Directives([], [], 1)
    ensures x.quote == SINGLE_QUOTE || x.quote == DOUBLE_QUOTE
  {
    hide Gap, Apart;
  }

  lemma RootRuns(css: Bytes, st: State, x: Stmt)
    requires Ready(st) && x.Root? && StmtOk(x, st.depth) && Stands(css, st.pos, Spelled(x))
    ensures Scan(css, st) == Scan(css, st.(pos := st.pos + |Spelled(x)|, found := Join(st.found, Holds(x))))
  {
    hide *;
    RootIsOk(x, st.depth);
    var text := RootTextIs(x.quote);
    var keyword, argument := GraphSpelled(x);
    RootReads(css, st, keyword, x.quote, x.before, argument, x.after);
    JoinReads(st.found, []);
  }

  // ---------- comments and text statements ----------

  lemma NoteRuns(css: Bytes, st: State, text: Bytes)
    requires StmtOk(Note(text), st.depth) && Stands(css, st.pos, Spelled(Note(text)))
    ensures Scan(css, st) == Scan(css, st.(pos := st.pos + |Spelled(Note(text))|))
  {
    hide Scan, CommentEnd, Stands;
    RemarkLexes(css, st.pos, text);
    RemarkText(text);
    OneRound(css, st);
  }

  lemma SpaceRuns(css: Bytes, st: State, b: Byte)
    requires Ready(st) && StmtOk(Space(b), st.depth) && Stands(css, st.pos, Spelled(Space(b)))
    ensures Scan(css, st) == Scan(css, st.(pos := st.pos + 1))
  {
    hide Scan, Round;
    StandsAt(css, st.pos, [b], 0);
    MarkRound(css, st);
    OneRound(css, st);
  }

  lemma LineEndRuns(css: Bytes, st: State)
    requires Ready(st) && Stands(css, st.pos, Spelled(LineEnd))
    ensures Scan(css, st) == Scan(css, st.(pos := st.pos + 2))
  {
    hide Scan, Round;
    StandsAt(css, st.pos, [RETURN, NEWLINE], 0);
    StandsAt(css, st.pos, [RETURN, NEWLINE], 1);
    MarkRound(css, st);
    OneRound(css, st);
    MarkRound(css, st.(pos := st.pos + 1));
    OneRound(css, st.(pos := st.pos + 1));
  }

  /** The semicolon after a statement's text. */
  lemma SemicolonRuns(css: Bytes, st: State)
    requires st.custom.None? && st.paren == 0 && At(css, st.pos, SEMICOLON)
    ensures Scan(css, st) == Scan(css, st.(pos := st.pos + 1, content := false))
  {
    hide Scan, Round;
    MarkRound(css, st);
    OneRound(css, st);
  }

  lemma PlainRuns(css: Bytes, st: State, text: seq<Piece>)
    requires Ready(st) && StmtOk(Stmt.Plain(text), st.depth) && Stands(css, st.pos, Spelled(Stmt.Plain(text)))
    ensures Scan(css, st) == Scan(css, st.(pos := st.pos + |Written(text)| + 1))
  {
    hide Scan, CalmText, Begins, Written;
    StandsParts(css, st.pos, Written(text), [SEMICOLON]);
    StandsAt(css, st.pos + |Written(text)|, [SEMICOLON], 0);
    CalmTextRuns(css, st, text);
    SemicolonRuns(css, st.(pos := st.pos + |Written(text)|, content := true));
  }

  lemma RuleRuns(css: Bytes, st: State, name: Bytes, text: seq<Piece>)
    requires Ready(st) && StmtOk(Rule(name, text), st.depth) && Stands(css, st.pos, Spelled(Rule(name, text)))
    ensures Scan(css, st) == Scan(css, st.(pos := st.pos + |name| + |Written(text)| + 2))
  {
    hide Scan, RuleHead, Written;
    StandsParts(css, st.pos, [AT] + name + Written(text), [SEMICOLON]);
    var stop := st.pos + 1 + |name| + |Written(text)|;
    StandsAt(css, stop, [SEMICOLON], 0);
    RuleHeadRuns(css, st, name, text);
    SemicolonRuns(css, st.(pos := stop, content := true));
  }

  // ---------- blocks and sheets ----------

  lemma JoinAssociates(a: Directives, b: Directives, c: Directives)
    ensures Join(Join(a, b), c) == Join(a, Join(b, c))
  {
    assert a.imports + b.imports + c.imports == a.imports + (b.imports + c.imports);
    assert a.sources + b.sources + c.sources == a.sources + (b.sources + c.sources);
  }

  lemma BraceRuns(css: Bytes, st: State)
    requires st.custom.None? && st.paren == 0 && (At(css, st.pos, OPEN_BRACE) || (At(css, st.pos, CLOSE_BRACE) && st.depth > 0))
    ensures Scan(css, st)
         == Scan(css, st.(pos := st.pos + 1, content := false,
                          depth := if css[st.pos] == OPEN_BRACE then st.depth + 1 else st.depth - 1))
  {
    hide Scan, Round;
    MarkRound(css, st);
    OneRound(css, st);
  }

  function Braced(body: seq<Stmt>): Bytes {
    [OPEN_BRACE] + Sheet(body) + [CLOSE_BRACE]
  }

  /** A block in braces adds what its statements hold, at the depth it was met at. */
  lemma {:induction false} BracedRuns(css: Bytes, st: State, body: seq<Stmt>)
    requires st.custom.None? && st.paren == 0 && SheetOk(body, st.depth + 1) && Stands(css, st.pos, Braced(body))
    ensures Scan(css, st)
         == Scan(css, st.(pos := st.pos + |Braced(body)|, content := false, found := Join(st.found, SheetHolds(body))))
    decreases body, 1
  {
    hide Scan, Sheet, SheetOk, SheetHolds, Join;
    StandsParts(css, st.pos, [OPEN_BRACE] + Sheet(body), [CLOSE_BRACE]);
    StandsParts(css, st.pos, [OPEN_BRACE], Sheet(body));
    StandsAt(css, st.pos, [OPEN_BRACE], 0);
    BraceRuns(css, st);
    var inside := st.(pos := st.pos + 1, content := false, depth := st.depth + 1);
    SheetRuns(css, inside, body);
    var last := inside.(pos := inside.pos + |Sheet(body)|, found := Join(st.found, SheetHolds(body)));
    StandsAt(css, last.pos, [CLOSE_BRACE], 0);
    BraceRuns(css, last);
  }

  lemma {:induction false} BlockRuns(css: Bytes, st: State, x: Stmt)
    requires Ready(st) && x.Block? && StmtOk(x, st.depth) && Stands(css, st.pos, Spelled(x))
    ensures Scan(css, st) == Scan(css, st.(pos := st.pos + |Spelled(x)|, found := Join(st.found, Holds(x))))
    decreases x, 0
  {
    hide Scan, CalmText, Begins, Written, Sheet, SheetOk, SheetHolds, Join;
    assert Spelled(x) == Written(x.head) + Braced(x.body);
    StandsParts(css, st.pos, Written(x.head), Braced(x.body));
    var stop := st.pos + |Written(x.head)|;
    StandsAt(css, stop, Braced(x.body), 0);
    CalmTextRuns(css, st, x.head);
    BracedRuns(css, st.(pos := stop, content := true), x.body);
  }

  lemma {:induction false} RuleBlockRuns(css: Bytes, st: State, x: Stmt)
    requires Ready(st) && x.RuleBlock? && StmtOk(x, st.depth) && Stands(css, st.pos, Spelled(x))
    ensures Scan(css, st) == Scan(css, st.(pos := st.pos + |Spelled(x)|, found := Join(st.found, Holds(x))))
    decreases x, 0
  {
    hide Scan, RuleHead, Written, Sheet, SheetOk, SheetHolds, Join;
    assert Spelled(x) == [AT] + x.name + Written(x.head) + Braced(x.body);
    StandsParts(css, st.pos, [AT] + x.name + Written(x.head), Braced(x.body));
    var stop := st.pos + 1 + |x.name| + |Written(x.head)|;
    StandsAt(css, stop, Braced(x.body), 0);
    RuleHeadRuns(css, st, x.name, x.head);
    BracedRuns(css, st.(pos := stop, content := true), x.body);
  }

  /** Blanks, comments and text statements hold nothing. */
  lemma HoldsNothing(x: Stmt)
    requires !x.Import? && !x.Root? && !x.Source? && !x.Block? && !x.RuleBlock?
    ensures Holds(x) == NOTHING
  {
  }

  lemma QuietRuns(css: Bytes, st: State, x: Stmt)
    requires Ready(st) && StmtOk(x, st.depth) && Stands(css, st.pos, Spelled(x))
    requires !x.Import? && !x.Root? && !x.Source? && !x.Block? && !x.RuleBlock?
    ensures Scan(css, st) == Scan(css, st.(pos := st.pos + |Spelled(x)|))
  {
    hide Scan, Ready, StmtOk, Stands, Written, PieceText, Flat;
    match x
    case Space(b) => SpaceRuns(css, st, b);
    case LineEnd => LineEndRuns(css, st);
    case Note(text) => NoteRuns(css, st, text);
    case Plain(text) => PlainRuns(css, st, text);
    case Rule(name, text) => RuleRuns(css, st, name, text);
    case Custom(parts) => CustomRuns(css, st, parts);
  }

  /** A statement is read to its end, adds exactly what it holds, and leaves the scanner ready. */
  lemma {:induction false} StmtRuns(css: Bytes, st: State, x: Stmt)
    requires Ready(st) && StmtOk(x, st.depth) && Stands(css, st.pos, Spelled(x))
    ensures Scan(css, st) == Scan(css, st.(pos := st.pos + |Spelled(x)|, found := Join(st.found, Holds(x))))
    decreases x, 1
  {
    hide *;
    match x
    case Import(_, _, _, _) => ImportRuns(css, st, x);
    case Root(_, _, _) => RootRuns(css, st, x);
    case Source(_, _, _, _) => SourceRuns(css, st, x);
    case Block(_, _) => BlockRuns(css, st, x);
    case RuleBlock(_, _, _) => RuleBlockRuns(css, st, x);
    case _ =>
      QuietRuns(css, st, x);
      HoldsNothing(x);
      JoinReads(st.found, []);
  }

  lemma {:induction false} SheetRuns(css: Bytes, st: State, xs: seq<Stmt>)
    requires Ready(st) && SheetOk(xs, st.depth) && Stands(css, st.pos, Sheet(xs))
    ensures Scan(css, st) == Scan(css, st.(pos := st.pos + |Sheet(xs)|, found := Join(st.found, SheetHolds(xs))))
    decreases xs, 0
  {
    hide Scan, Stands, Join, Spelled, StmtOk, Holds;
    JoinReads(st.found, []);
    if xs != [] {
      var x, rest := xs[0], xs[1..];
      StandsParts(css, st.pos, Spelled(x), Sheet(rest));
      StmtRuns(css, st, x);
      var next := st.(pos := st.pos + |Spelled(x)|, found := Join(st.found, Holds(x)));
      SheetRuns(css, next, rest);
      JoinAssociates(st.found, Holds(x), SheetHolds(rest));
    }
  }

  // ---------- the result ----------

  lemma FirstByteIsAscii(x: Stmt, depth: nat)
    requires StmtOk(x, depth)
    ensures Spelled(x) != [] && Spelled(x)[0] < 128
  {
    hide Sheet, SheetOk, Sourceless, Level, Flat, PartsOk, Written, Gap, Literal, Lit, PieceText;
    match x
    case Note(text) => FirstByte(Remark(text));
    case Custom(parts) => HyphensAreAscii();
    case Plain(text) => WrittenFirst(text); FirstByte(text[0]);
    case Block(head, _) => WrittenFirst(head); FirstByte(head[0]);
    case _ =>
  }

  lemma HyphensAreAscii()
    ensures |Lit("--")| == 2 && Lit("--")[0] < 128
  {
  }

  lemma NoBom(xs: seq<Stmt>)
    requires SheetOk(xs, 0)
    ensures !(BOM <= Sheet(xs))
  {
    hide Spelled, StmtOk;
    if xs != [] {
      FirstByteIsAscii(xs[0], 0);
      assert Sheet(xs)[0] < 128 < BOM[0];
    }
  }

  /** Every sheet written by the rules is accepted, with exactly the imports, source directories and root imports that
      stand in it; a byte order mark in front changes nothing. */
  lemma WrittenSheetsAreAccepted(xs: seq<Stmt>)
    requires SheetOk(xs, 0)
    ensures Accepted(Sheet(xs)) == Some(SheetHolds(xs))
    ensures Accepted([239, 187, 191] + Sheet(xs)) == Some(SheetHolds(xs))
  {
    hide Sheet, SheetOk, SheetHolds;
    NoBom(xs);
    SheetIsRead(Sheet(xs), xs, 0);
    SheetIsRead([239, 187, 191] + Sheet(xs), xs, 3);
  }

  lemma SheetIsRead(css: Bytes, xs: seq<Stmt>, pos: nat)
    requires SheetOk(xs, 0) && Start(css).pos == pos <= |css| && css[pos..] == Sheet(xs)
    ensures Accepted(css) == Some(SheetHolds(xs))
  {
    hide Sheet, SheetOk, SheetHolds;
    assert css[pos..pos + |Sheet(xs)|] == css[pos..];
    SheetRuns(css, Start(css), xs);
    var found := SheetHolds(xs);
    assert [] + found.imports == found.imports && [] + found.sources == found.sources;
  }
}
