/** The CSS check as a function of the bytes: one loop round at a time, over the scanner's five pieces of state. */
module TailwindSpec {
  import opened Wrappers
  import opened TailwindLex

  /** `custom` is the closer stack while a custom property value is being read. */
  datatype State = State(pos: nat, depth: nat, paren: nat, content: bool, custom: Option<Bytes>, found: Directives)

  datatype Directives = Directives(imports: seq<Bytes>, sources: seq<Bytes>, roots: nat)

  const IMPORT: Bytes := [105, 109, 112, 111, 114, 116]
  const SOURCE_RULE: Bytes := [115, 111, 117, 114, 99, 101]

  lemma GraphRulesRead()
    ensures IMPORT == Lit("import") && SOURCE_RULE == Lit("source")
  {
  }

  const ALLOWED_COUNT := 17
  const KNOWN_COUNT := 21

  /** The allowed rules, then the excluded ones. */
  function RuleName(i: nat): Bytes {
    if i == 0 then IMPORT
    else if i == 1 then SOURCE_RULE
    else if i == 2 then Lit("media")
    else if i == 3 then Lit("supports")
    else if i == 4 then Lit("layer")
    else if i == 5 then Lit("keyframes")
    else if i == 6 then Lit("font-face")
    else if i == 7 then Lit("theme")
    else if i == 8 then Lit("utility")
    else if i == 9 then Lit("variant")
    else if i == 10 then Lit("custom-variant")
    else if i == 11 then Lit("apply")
    else if i == 12 then Lit("container")
    else if i == 13 then Lit("property")
    else if i == 14 then Lit("starting-style")
    else if i == 15 then Lit("page")
    else if i == 16 then Lit("charset")
    else if i == 17 then Lit("plugin")
    else if i == 18 then Lit("config")
    else if i == 19 then Lit("reference")
    else Lit("tailwind")
  }

  /** `name` is one of the rules `from .. to`. */
  predicate Listed(name: Bytes, from: nat, to: nat)
    decreases |name|, to - from
  {
    from < to && (RuleName(from) == name || Listed(name, from + 1, to))
  }

  predicate AllowedRule(name: Bytes) {
    Listed(name, 0, ALLOWED_COUNT)
  }

  const TAILWIND: Bytes := [116, 97, 105, 108, 119, 105, 110, 100, 99, 115, 115]
  const SOURCE_NONE: Bytes := [32, 115, 111, 117, 114, 99, 101, 40, 110, 111, 110, 101, 41]

  function LowerAll(text: Bytes): Bytes {
    seq(|text|, i requires 0 <= i < |text| => Lower(text[i]))
  }

  /** A known rule spelled with other than lower-case letters. */
  predicate MiscasedRule(name: Bytes) {
    Listed(LowerAll(name), 0, KNOWN_COUNT) && name != LowerAll(name)
  }

  function NameEnd(css: Bytes, pos: nat): (e: nat)
    ensures pos <= e && (pos <= |css| ==> e <= |css|)
    ensures forall i :: pos <= i < e ==> i < |css| && (Letter(css[i]) || css[i] == HYPHEN)
    ensures e < |css| ==> !Letter(css[e]) && css[e] != HYPHEN
    decreases |css| - pos
  {
    if pos < |css| && (Letter(css[pos]) || css[pos] == HYPHEN) then NameEnd(css, pos + 1) else pos
  }

  /** A space, tab, newline or CR LF at `pos`. */
  predicate BlankAt(css: Bytes, pos: nat) {
    || At(css, pos, SPACE) || At(css, pos, TAB) || At(css, pos, NEWLINE)
    || (At(css, pos, RETURN) && At(css, pos + 1, NEWLINE))
  }

  /** `skip_escape`: a backslash must not hide a non-ASCII byte. */
  function SkipEscape(css: Bytes, pos: nat): (e: Option<nat>)
    requires pos < |css|
    ensures e.Some? ==> pos < e.value <= |css|
  {
    if pos + 1 < |css| && !Ascii(css[pos + 1]) then None else Some(Min(pos + 2, |css|))
  }

  /** The semicolon that ends an import or source statement whose argument starts at `pos`. */
  function StatementEnd(css: Bytes, pos: nat): (e: Option<nat>)
    ensures e.Some? ==> pos <= e.value < |css| && css[e.value] == SEMICOLON
    decreases |css| - pos
  {
    if pos >= |css| then None
    else if css[pos] == SEMICOLON then Some(pos)
    else
      match LexAt(css, pos)
      case Comment(e) => StatementEnd(css, e)
      case Text(e) => StatementEnd(css, e)
      case Escape(e) => if SkipEscape(css, pos).Some? then StatementEnd(css, e) else None
      case Plain =>
        if !Ascii(css[pos]) || css[pos] == OPEN_BRACE || css[pos] == CLOSE_BRACE then None
        else StatementEnd(css, pos + 1)
      case Unterminated => None
  }

  /** `reject_source_in_statement`: no `source(` at a plain position of `[pos, end)`. */
  predicate NoSourceIn(css: Bytes, pos: nat, end: nat)
    decreases |css| - pos
  {
    if pos >= end || pos >= |css| then true
    else
      match LexAt(css, pos)
      case Comment(e) => NoSourceIn(css, e, end)
      case Text(e) => NoSourceIn(css, e, end)
      case Escape(e) => NoSourceIn(css, Min(e, end), end)
      case Plain => SourceToken(css, pos) == Some(false) && NoSourceIn(css, pos + 1, end)
      case Unterminated => false
  }

  predicate Trimmable(b: Byte) {
    b == SPACE || b == TAB || b == NEWLINE || b == RETURN || b == FORM_FEED
  }

  function TrimFront(text: Bytes, i: nat): (lo: nat)
    requires i <= |text|
    ensures i <= lo <= |text| && forall k :: i <= k < lo ==> Trimmable(text[k])
    decreases |text| - i
  {
    if i < |text| && Trimmable(text[i]) then TrimFront(text, i + 1) else i
  }

  function TrimBack(text: Bytes, lo: nat, j: nat): (hi: nat)
    requires lo <= j <= |text|
    ensures lo <= hi <= j && forall k :: hi <= k < j ==> Trimmable(text[k])
  {
    if lo < j && Trimmable(text[j - 1]) then TrimBack(text, lo, j - 1) else j
  }

  /** `ascii_trim`. */
  function Trim(text: Bytes): Bytes {
    var lo := TrimFront(text, 0);
    text[lo..TrimBack(text, lo, |text|)]
  }

  predicate Contains(text: Bytes, chars: Bytes) {
    exists i :: 0 <= i < |text| && text[i] in chars
  }

  const UNQUOTABLE: Bytes := [SINGLE_QUOTE, DOUBLE_QUOTE, BACKSLASH, NEWLINE, RETURN]

  /** The inside of a text that is one plain quoted string of at least one byte. */
  function QuotedOnly(text: Bytes): Option<Bytes> {
    if |text| < 3 || !Quote(text[0]) || text[|text| - 1] != text[0] then None
    else
      var inner := text[1..|text| - 1];
      if Contains(inner, UNQUOTABLE) then None else Some(inner)
  }

  predicate Relative(path: Bytes) {
    [DOT, SLASH] <= path || [DOT, DOT, SLASH] <= path
  }

  /** The last path component that is not empty and not `.`. */
  function LastComponent(path: Bytes): Bytes {
    if path == [] then []
    else if path[|path| - 1] == SLASH then LastComponent(path[..|path| - 1])
    else
      var name := path[AfterSlash(path)..];
      if name == [DOT] then LastComponent(path[..AfterSlash(path)]) else name
  }

  /** The index after the last slash. */
  function AfterSlash(path: Bytes): (i: nat)
    ensures i <= |path| && (path != [] && path[|path| - 1] != SLASH ==> i < |path|)
  {
    if path == [] then 0
    else if path[|path| - 1] == SLASH then |path|
    else AfterSlash(path[..|path| - 1])
  }

  /** `Path::extension` is `css`. */
  predicate CssExtension(path: Bytes) {
    var name := LastComponent(path);
    |name| > 4 && MatchesAt(name, |name| - 4, [DOT, 99, 115, 115])
  }

  predicate RelativeCss(path: Bytes) {
    Relative(path) && CssExtension(path)
  }

  const GLOBS: Bytes := [STAR, QUESTION, OPEN_SQUARE, CLOSE_SQUARE, OPEN_BRACE, CLOSE_BRACE, COMMA, BANG,
                         OPEN_PAREN, CLOSE_PAREN, BACKSLASH]

  function SourcePath(argument: Bytes): Option<Bytes> {
    if Contains(argument, GLOBS) then None
    else
      match QuotedOnly(argument)
      case None => None
      case Some(path) => if Relative(path) then Some(path) else None
  }

  predicate MatchesAt(text: Bytes, at: nat, word: Bytes) {
    at + |word| <= |text| && forall k :: 0 <= k < |word| ==> text[at + k] == word[k]
  }

  /** The quoted word `tailwindcss`, with either quote. */
  predicate NearMissRoot(argument: Bytes) {
    |argument| >= 13 && Quote(argument[0]) && MatchesAt(argument, 1, TAILWIND) && argument[12] == argument[0]
  }

  predicate RootForm(argument: Bytes) {
    |argument| == 26 && NearMissRoot(argument) && MatchesAt(argument, 13, SOURCE_NONE)
  }

  /** `RootForm` is `"tailwindcss" source(none)` or the same with single quotes. */
  lemma RootFormReads(argument: Bytes)
    ensures RootForm(argument) <==>
              exists q :: Quote(q) && argument == [q] + Lit("tailwindcss") + [q] + Lit(" source(none)")
  {
    var word, tail := Lit("tailwindcss"), Lit(" source(none)");
    assert TAILWIND == word && SOURCE_NONE == tail;
    if RootForm(argument) {
      var q := argument[0];
      assert argument[1..12] == word;
      assert argument[13..] == tail;
      assert argument == [q] + argument[1..12] + [q] + argument[13..];
    }
    if q :| Quote(q) && argument == [q] + word + [q] + tail {
      assert forall k :: 0 <= k < 11 ==> argument[1 + k] == word[k];
      assert forall k :: 0 <= k < 13 ==> argument[13 + k] == tail[k];
    }
  }

  /** What an `@import` or `@source` with argument bytes `[from, end)` adds. */
  function Statement(css: Bytes, st: State, name: Bytes, from: nat, end: nat): Option<Directives>
    requires from <= end <= |css|
  {
    var argument := Trim(css[from..end]);
    if name == IMPORT then
      if RootForm(argument) then
        if st.depth != 0 || st.paren != 0 then None
        else Some(st.found.(roots := st.found.roots + 1))
      else if NearMissRoot(argument) || !NoSourceIn(css, from, end) then None
      else
        match QuotedOnly(argument)
        case None => None
        case Some(path) =>
          if RelativeCss(path) then Some(st.found.(imports := st.found.imports + [path])) else None
    else
      if !NoSourceIn(css, from, end) || st.depth != 0 then None
      else
        match SourcePath(argument)
        case None => None
        case Some(path) => Some(st.found.(sources := st.found.sources + [path]))
  }

  /** The end of the rule name at the `@` before `from`, when the name is spelled right and allowed. */
  function RuleEnd(css: Bytes, from: nat): (e: Option<nat>)
    requires from <= |css|
    ensures e.Some? ==> e.value == NameEnd(css, from) && from < e.value <= |css| && !StartsComment(css, e.value)
  {
    var end := NameEnd(css, from);
    var name := css[from..end];
    if StartsComment(css, end) || (from < |css| && !Ascii(css[from])) || MiscasedRule(name) then None
    else if name == [] || (end < |css| && (Digit(css[end]) || css[end] == UNDERSCORE)) || !AllowedRule(name) then None
    else Some(end)
  }

  /** An `@import` or `@source` whose name ends at `end`. */
  function GraphRule(css: Bytes, st: State, name: Bytes, end: nat): (r: Option<State>)
    requires st.pos < end <= |css|
    ensures r.Some? ==> end < r.value.pos <= |css| && r.value.custom == st.custom
  {
    if st.content || !BlankAt(css, end) then None
    else
      match StatementEnd(css, end)
      case None => None
      case Some(stop) =>
        match Statement(css, st, name, end, stop)
        case None => None
        case Some(found) => Some(st.(pos := stop + 1, content := false, found := found))
  }

  /** A round at `@`. */
  function AtRule(css: Bytes, st: State): (r: Option<State>)
    requires st.pos < |css| && css[st.pos] == AT
    ensures r.Some? ==> st.pos < r.value.pos <= |css| && r.value.custom == st.custom
  {
    match RuleEnd(css, st.pos + 1)
    case None => None
    case Some(end) =>
      var name := css[st.pos + 1..end];
      if name == IMPORT || name == SOURCE_RULE then GraphRule(css, st, name, end)
      else Some(st.(pos := end, content := true))
  }

  function Closer(b: Byte): Option<Byte> {
    if b == OPEN_PAREN then Some(CLOSE_PAREN)
    else if b == OPEN_SQUARE then Some(CLOSE_SQUARE)
    else if b == OPEN_BRACE then Some(CLOSE_BRACE)
    else None
  }

  predicate IsCloser(b: Byte) {
    b == CLOSE_PAREN || b == CLOSE_SQUARE || b == CLOSE_BRACE
  }

  /** A round inside a custom property value. The brace that ends the value is left for the next round. */
  function InCustom(st: State, b: Byte): Option<State>
    requires st.custom.Some?
  {
    var closers := st.custom.value;
    if b == AT then None
    else if Closer(b).Some? then Some(st.(pos := st.pos + 1, custom := Some(closers + [Closer(b).value])))
    else if IsCloser(b) then
      if closers != [] && closers[|closers| - 1] == b then
        Some(st.(pos := st.pos + 1, custom := Some(closers[..|closers| - 1])))
      else if closers != [] then None
      else if b == CLOSE_BRACE then Some(st.(custom := None))
      else Some(st.(pos := st.pos + 1))
    else if b == SEMICOLON && closers == [] then Some(st.(pos := st.pos + 1, custom := None, content := false))
    else Some(st.(pos := st.pos + 1))
  }

  /** A round at a plain ASCII byte outside custom property values. */
  function InRule(css: Bytes, st: State): (r: Option<State>)
    requires st.pos < |css| && st.custom.None?
    ensures r.Some? ==> st.pos < r.value.pos <= |css|
  {
    var b := css[st.pos];
    if !st.content && b == HYPHEN && At(css, st.pos + 1, HYPHEN) then
      Some(st.(pos := st.pos + 2, content := true, custom := Some([])))
    else if b == OPEN_PAREN then Some(st.(pos := st.pos + 1, paren := st.paren + 1, content := true))
    else if b == CLOSE_PAREN then
      if st.paren == 0 then None else Some(st.(pos := st.pos + 1, paren := st.paren - 1, content := true))
    else if st.paren != 0 && (b == OPEN_BRACE || b == CLOSE_BRACE) then None
    else if b == OPEN_BRACE then Some(st.(pos := st.pos + 1, depth := st.depth + 1, content := false))
    else if b == CLOSE_BRACE then
      if st.depth == 0 then None else Some(st.(pos := st.pos + 1, depth := st.depth - 1, content := false))
    else if b == AT then AtRule(css, st)
    else if b == SEMICOLON && st.paren == 0 then Some(st.(pos := st.pos + 1, content := false))
    else if BlankAt(css, st.pos) then Some(st.(pos := st.pos + 1))
    else Some(st.(pos := st.pos + 1, content := true))
  }

  /** One round of the scanner; `None` is an error. */
  function Round(css: Bytes, st: State): (r: Option<State>)
    requires st.pos < |css|
    ensures r.Some? ==> st.pos <= r.value.pos <= |css|
    ensures r.Some? && r.value.pos == st.pos ==> st.custom.Some? && r.value.custom.None?
  {
    match LexAt(css, st.pos)
    case Comment(e) => Some(st.(pos := e))
    case Text(e) => Some(st.(pos := e, content := true))
    case Escape(e) => if SkipEscape(css, st.pos).Some? then Some(st.(pos := e, content := true)) else None
    case Unterminated => None
    case Plain =>
      if !Ascii(css[st.pos]) || SourceToken(css, st.pos) != Some(false) then None
      else if st.custom.Some? then InCustom(st, css[st.pos])
      else InRule(css, st)
  }

  function AtEnd(st: State): Option<Directives> {
    if st.depth != 0 || st.paren != 0 || (st.custom.Some? && st.custom.value != []) then None
    else Some(st.found)
  }

  /** Scan to the end: the scanner terminates under (bytes left, in a custom property value). */
  function Scan(css: Bytes, st: State): Option<Directives>
    decreases |css| - st.pos, if st.custom.Some? then 1 else 0
  {
    if st.pos >= |css| then AtEnd(st)
    else
      match Round(css, st)
      case None => None
      case Some(next) => Scan(css, next)
  }

  const BOM: Bytes := [239, 187, 191]

  function Start(css: Bytes): State {
    State(if BOM <= css then 3 else 0, 0, 0, false, None, Directives([], [], 0))
  }

  function Accepted(css: Bytes): Option<Directives> {
    Scan(css, Start(css))
  }
}
