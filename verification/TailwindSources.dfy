/** Statement starts and `source(`: what the scanner recognises where. */
module TailwindSources {
  import opened Wrappers
  import opened TailwindLex
  import opened TailwindSpec

  // ---------- statement starts ----------

  /** At every loop head an open parenthesis implies content, and a custom property value implies no open
      parenthesis, and content. */
  predicate HeadOk(st: State) {
    && (st.paren > 0 ==> st.content)
    && (st.custom.Some? ==> st.paren == 0 && st.content)
  }

  lemma HeadOkAtStart(css: Bytes)
    ensures HeadOk(Start(css))
  {
  }

  lemma RoundKeepsHead(css: Bytes, st: State)
    requires st.pos < |css| && HeadOk(st) && Round(css, st).Some?
    ensures HeadOk(Round(css, st).value)
  {
  }

  /** The state at the head of round `n`. */
  function AfterRounds(css: Bytes, n: nat): Option<State> {
    if n == 0 then Some(Start(css))
    else
      match AfterRounds(css, n - 1)
      case None => None
      case Some(st) => if st.pos < |css| then Round(css, st) else None
  }

  lemma {:induction false} AlwaysHeadOk(css: Bytes, n: nat)
    requires AfterRounds(css, n).Some?
    ensures HeadOk(AfterRounds(css, n).value)
  {
    if n == 0 {
      HeadOkAtStart(css);
    } else {
      AlwaysHeadOk(css, n - 1);
      RoundKeepsHead(css, AfterRounds(css, n - 1).value);
    }
  }

  /** Import and source statements are recognised only at parenthesis depth 0, so the parenthesis guard of the root
      import never fires; roots and sources are accepted only at depth 0. */
  lemma GraphRulesAtParenZero(css: Bytes, st: State)
    requires st.pos < |css| && HeadOk(st) && css[st.pos] == AT
    ensures AtRule(css, st).Some? && AtRule(css, st).value.found != st.found ==>
              && st.paren == 0 && !st.content
              && (AtRule(css, st).value.found.imports == st.found.imports ==> st.depth == 0)
  {
    hide RuleEnd, StatementEnd, NoSourceIn, RootForm, NearMissRoot, Trim, QuotedOnly, RelativeCss, SourcePath;
  }

  /** A text is one plain string literal, with something in it and no quote, backslash or line end inside. */
  ghost predicate IsLiteral(text: Bytes, inner: Bytes) {
    && inner != []
    && (exists q :: Quote(q) && text == [q] + inner + [q])
    && forall i :: 0 <= i < |inner| ==> inner[i] !in UNQUOTABLE
  }

  lemma QuotedOnlyIsLiteral(text: Bytes, inner: Bytes)
    ensures QuotedOnly(text) == Some(inner) <==> IsLiteral(text, inner)
  {
    if QuotedOnly(text) == Some(inner) {
      assert text == [text[0]] + inner + [text[0]];
      assert Quote(text[0]);
    }
    if IsLiteral(text, inner) {
      var q :| Quote(q) && text == [q] + inner + [q];
      assert text[1..|text| - 1] == inner;
    }
  }

  ghost predicate AddsImport(st: State, argument: Bytes, found: Directives) {
    exists path :: IsLiteral(argument, path) && RelativeCss(path)
                   && found == st.found.(imports := st.found.imports + [path])
  }

  ghost predicate AddsSource(st: State, argument: Bytes, found: Directives) {
    exists path :: IsLiteral(argument, path) && Relative(path) && !Contains(path, GLOBS)
                   && found == st.found.(sources := st.found.sources + [path])
  }

  /** Every accepted `@import` or `@source` argument is the exact root form or one string literal holding a
      relative path; what it adds is exactly that. */
  lemma AcceptedArgument(css: Bytes, st: State, name: Bytes, from: nat, end: nat)
    requires from <= end <= |css| && (name == IMPORT || name == SOURCE_RULE)
    requires Statement(css, st, name, from, end).Some?
    ensures var argument := Trim(css[from..end]);
            var found := Statement(css, st, name, from, end).value;
            || (name == IMPORT && RootForm(argument) && st.depth == 0 && found == st.found.(roots := st.found.roots + 1))
            || (name == IMPORT && NoSourceIn(css, from, end) && AddsImport(st, argument, found))
            || (name == SOURCE_RULE && NoSourceIn(css, from, end) && st.depth == 0 && AddsSource(st, argument, found))
  {
    hide Trim, NoSourceIn, NearMissRoot, RelativeCss;
    var argument := Trim(css[from..end]);
    if !(name == IMPORT && RootForm(argument)) {
      assert QuotedOnly(argument).Some?;
      var path := QuotedOnly(argument).value;
      QuotedOnlyIsLiteral(argument, path);
      assert path == argument[1..|argument| - 1];
      assert IMPORT[0] != SOURCE_RULE[0];
      forall i | 0 <= i < |path| && name == SOURCE_RULE
        ensures path[i] !in GLOBS
      {
        assert path[i] == argument[i + 1];
      }
    }
  }

  // ---------- no source( in a rule name ----------

  lemma {:induction false} ElideName(css: Bytes, i: nat, end: nat)
    requires i <= end <= |css|
    requires forall j :: i <= j < end ==> css[j] != SLASH
    ensures Elide(css, i) == css[i..end] + Elide(css, end)
    decreases end - i
  {
    if i < end {
      ElideName(css, i + 1, end);
      var rest := Elide(css, end);
      assert Elide(css, i) == [css[i]] + (css[i + 1..end] + rest);
      assert [css[i]] + (css[i + 1..end] + rest) == css[i..end] + rest;
    }
  }

  /** Lower case, and ending in `rce` only as `source` itself. */
  predicate ShapeOk(name: Bytes) {
    && (forall j :: 0 <= j < |name| ==> Lower(name[j]) == name[j])
    && (|name| >= 6 && name[|name| - 3] == 114 && name[|name| - 2] == 99 && name[|name| - 1] == 101 ==>
          name == SOURCE_RULE)
  }

  lemma {:induction false} AllowedShape(name: Bytes, k: nat)
    requires k <= ALLOWED_COUNT && Listed(name, k, ALLOWED_COUNT)
    ensures ShapeOk(name)
    decreases ALLOWED_COUNT - k
  {
    if RuleName(k) == name {
      if k < 9 { RuleShape(k); } else if k < 13 { RuleShapeRest(k); } else { RuleShapeLast(k); }
    } else {
      AllowedShape(name, k + 1);
    }
  }

  lemma RuleShape(k: nat)
    requires k < 9
    ensures ShapeOk(RuleName(k))
  {
  }

  lemma RuleShapeRest(k: nat)
    requires 9 <= k < 13
    ensures ShapeOk(RuleName(k))
  {
  }

  lemma RuleShapeLast(k: nat)
    requires 13 <= k < ALLOWED_COUNT
    ensures ShapeOk(RuleName(k))
  {
  }

  lemma RuleEndShape(css: Bytes, from: nat)
    requires from <= |css| && RuleEnd(css, from).Some?
    ensures ShapeOk(css[from..RuleEnd(css, from).value])
  {
    AllowedShape(css[from..RuleEnd(css, from).value], 0);
  }

  /** Inside an accepted rule name no `source(` starts, not even one that continues after the name. */
  lemma NameHasNoSource(css: Bytes, from: nat, end: nat, i: nat)
    requires from <= i < end <= |css| && RuleEnd(css, from) == Some(end)
    requires css[from..end] == SOURCE_RULE ==> BlankAt(css, end)
    ensures !SourceAt(css, i)
  {
    ElideName(css, i, end);
    RuleEndShape(css, from);
    var text := Elide(css, i);
    var n := end - i;
    assert forall j :: 0 <= j < n ==> text[j] == css[i + j];
    if SourceAt(css, i) {
      SourceNeedsSource(css, from, end, i);
    }
  }

  /** A `source(` that starts in the name and reaches past it makes the name end in `source`. */
  lemma SourceNeedsSource(css: Bytes, from: nat, end: nat, i: nat)
    requires from <= i < end <= |css| && RuleEnd(css, from) == Some(end) && ShapeOk(css[from..end])
    requires css[from..end] == SOURCE_RULE ==> BlankAt(css, end)
    requires Elide(css, i) == css[i..end] + Elide(css, end)
    ensures !SourceAt(css, i)
  {
    hide RuleEnd, Elide;
    var n := end - i;
    var text, name := Elide(css, i), css[from..end];
    assert forall j :: 0 <= j < n ==> text[j] == css[i + j];
    if n >= 7 {
      assert text[6] == css[i + 6];
    } else if n == 6 {
      assert text[3] == name[|name| - 3] && text[4] == name[|name| - 2] && text[5] == name[|name| - 1];
      if name == SOURCE_RULE {
        PastName(css, end, text, n);
      }
    } else {
      PastName(css, end, text, n);
    }
  }

  /** After an accepted name the elided text goes on with the byte there, if there is one. */
  lemma PastName(css: Bytes, end: nat, text: Bytes, n: nat)
    requires end <= |css| && |text| >= n && text[n..] == Elide(css, end) && !StartsComment(css, end)
    requires n <= 6 && (end < |css| ==> Lower(css[end]) != SOURCE[n])
    ensures !Spells(text, SOURCE)
  {
    if end < |css| {
      assert text[n] == text[n..][0] == css[end];
    }
  }

  // ---------- counting source( ----------

  lemma {:induction false} NameRunCount(css: Bytes, i: nat, end: nat)
    requires i <= end <= |css|
    requires forall j :: i <= j < end ==> (Letter(css[j]) || css[j] == HYPHEN) && !SourceAt(css, j)
    ensures CountSources(css, i) == CountSources(css, end)
    decreases end - i
  {
    if i < end {
      NameRunCount(css, i + 1, end);
      assert LexAt(css, i) == Plain;
    }
  }

  /** A statement without `source(` at a plain position adds none to the count. */
  lemma {:induction false} NoSourceCount(css: Bytes, pos: nat, end: nat)
    requires StatementEnd(css, pos) == Some(end) && NoSourceIn(css, pos, end)
    ensures CountSources(css, pos) == CountSources(css, end)
    decreases |css| - pos
  {
    if pos < end {
      match LexAt(css, pos)
      case Comment(e) => NoSourceCount(css, e, end);
      case Text(e) => NoSourceCount(css, e, end);
      case Escape(e) => NoSourceCount(css, e, end);
      case Plain =>
        SourceTokenMeansElided(css, pos);
        NoSourceCount(css, pos + 1, end);
    }
  }

  /** Bytes that start neither a comment, string, escape nor `source(`. */
  predicate Dull(b: Byte) {
    b != SLASH && !Quote(b) && b != BACKSLASH && Lower(b) != SOURCE[0]
  }

  lemma {:induction false} DullRun(css: Bytes, lo: nat, hi: nat)
    requires lo <= hi <= |css| && forall j :: lo <= j < hi ==> Dull(css[j])
    ensures CountSources(css, lo) == CountSources(css, hi)
    decreases hi - lo
  {
    if lo < hi {
      DullRun(css, lo + 1, hi);
      assert Elide(css, lo)[0] == css[lo];
      assert !SourceAt(css, lo);
    }
  }

  lemma {:induction false} StringEndAt(css: Bytes, quote: Byte, pos: nat, end: nat)
    requires pos <= end < |css| && Quote(quote) && css[end] == quote
    requires forall j :: pos <= j < end ==> css[j] != BACKSLASH && css[j] != quote
    ensures StringEnd(css, quote, pos) == Some(end + 1)
    decreases end - pos
  {
    if pos < end {
      StringEndAt(css, quote, pos + 1, end);
    }
  }

  lemma SubSlice(css: Bytes, from: nat, end: nat, i: nat, j: nat)
    requires from <= end <= |css| && i <= j <= end - from
    ensures css[from..end][i..j] == css[from + i..from + j]
  {
    var left, right := css[from..end][i..j], css[from + i..from + j];
    assert |left| == |right| == j - i;
    forall k | 0 <= k < j - i
      ensures left[k] == right[k]
    {
      assert left[k] == css[from..end][i + k] == css[from + i + k];
    }
  }

  /** The trimmed argument sits between blanks. */
  lemma TrimmedAt(css: Bytes, from: nat, end: nat) returns (lo: nat, hi: nat)
    requires from <= end <= |css|
    ensures from <= lo <= hi <= end && Trim(css[from..end]) == css[lo..hi]
    ensures forall k :: from <= k < lo || hi <= k < end ==> Trimmable(css[k])
  {
    var text := css[from..end];
    var i := TrimFront(text, 0);
    var j := TrimBack(text, i, |text|);
    lo, hi := from + i, from + j;
    SubSlice(css, from, end, i, j);
    forall k | from <= k < lo || hi <= k < end
      ensures Trimmable(css[k])
    {
      assert text[k - from] == css[k];
    }
  }

  /** What the exact root import looks like in the file: blanks, the string, ` source(none)`, blanks. */
  lemma RootAt(css: Bytes, from: nat, end: nat) returns (lo: nat)
    requires from <= end <= |css| && RootForm(Trim(css[from..end]))
    ensures from <= lo && lo + 26 <= end
    ensures forall k :: from <= k < lo || lo + 26 <= k < end ==> Trimmable(css[k])
    ensures LexAt(css, lo) == Text(lo + 13)
    ensures MatchesAt(css, lo + 13, SOURCE_NONE)
  {
    var hi;
    lo, hi := TrimmedAt(css, from, end);
    var argument := css[lo..hi];
    assert forall k :: 0 <= k < 26 ==> css[lo + k] == argument[k];
    forall j | lo + 1 <= j < lo + 12
      ensures css[j] != BACKSLASH && !Quote(css[j])
    {
      assert css[j] == TAILWIND[j - lo - 1];
    }
    StringEndAt(css, css[lo], lo + 1, lo + 12);
    forall k | 0 <= k < 13
      ensures css[lo + 13 + k] == SOURCE_NONE[k]
    {
      assert argument[13 + k] == SOURCE_NONE[k];
    }
  }

  lemma NoneTail(css: Bytes, lo: nat)
    requires lo + 26 <= |css| && MatchesAt(css, lo + 13, SOURCE_NONE)
    ensures css[lo + 13] == SPACE && MatchesAt(css, lo + 14, SOURCE)
    ensures forall k :: lo + 15 <= k < lo + 26 ==> Dull(css[k])
    ensures css[lo + 20] == OPEN_PAREN && css[lo + 25] == CLOSE_PAREN
    ensures forall k :: lo + 21 <= k < lo + 25 ==> Letter(css[k])
  {
    forall k | 0 <= k < 7
      ensures css[lo + 14 + k] == SOURCE[k]
    {
      assert css[lo + 13 + (k + 1)] == SOURCE_NONE[k + 1];
    }
    forall k | lo + 15 <= k < lo + 26
      ensures css[k] == SOURCE_NONE[k - lo - 13]
    {
      assert css[lo + 13 + (k - lo - 13)] == SOURCE_NONE[k - lo - 13];
    }
    assert css[lo + 13 + 0] == SOURCE_NONE[0];
  }

  /** The root import's bytes as the lexer sees them: dull bytes around one string and one `source(`. */
  lemma RootShape(css: Bytes, from: nat, end: nat) returns (lo: nat)
    requires from <= end <= |css| && RootForm(Trim(css[from..end]))
    ensures from <= lo && lo + 26 <= end
    ensures forall k :: from <= k < lo || lo + 13 <= k < lo + 14 || lo + 15 <= k < end ==> Dull(css[k])
    ensures LexAt(css, lo) == Text(lo + 13)
    ensures LexAt(css, lo + 14) == Plain && SourceAt(css, lo + 14)
  {
    lo := RootAt(css, from, end);
    NoneTail(css, lo);
    NoneIsSource(css, lo + 14);
  }

  lemma ShapeCount(css: Bytes, from: nat, lo: nat, end: nat)
    requires from <= lo && lo + 26 <= end <= |css|
    requires forall k :: from <= k < lo || lo + 13 <= k < lo + 14 || lo + 15 <= k < end ==> Dull(css[k])
    requires LexAt(css, lo) == Text(lo + 13)
    requires LexAt(css, lo + 14) == Plain && SourceAt(css, lo + 14)
    ensures CountSources(css, from) == 1 + CountSources(css, end)
  {
    DullRun(css, from, lo);
    DullRun(css, lo + 13, lo + 14);
    DullRun(css, lo + 15, end);
  }

  /** The exact root import holds exactly one `source(`. */
  lemma RootCount(css: Bytes, from: nat, end: nat)
    requires from <= end <= |css| && RootForm(Trim(css[from..end]))
    ensures CountSources(css, from) == 1 + CountSources(css, end)
  {
    var lo := RootShape(css, from, end);
    ShapeCount(css, from, lo, end);
  }

  lemma NoneIsSource(css: Bytes, pos: nat)
    requires MatchesAt(css, pos, SOURCE)
    ensures SourceAt(css, pos) && css[pos] == SOURCE[0]
  {
    forall k | pos <= k < pos + 7
      ensures css[k] == SOURCE[k - pos]
    {
      assert css[pos + (k - pos)] == SOURCE[k - pos];
    }
    ElideName(css, pos, pos + 7);
    var text := Elide(css, pos);
    forall k | 0 <= k < 7
      ensures Lower(text[k]) == SOURCE[k]
    {
      assert text[k] == css[pos + k] == SOURCE[k];
    }
  }

  /** The name of an accepted rule holds no `source(`. */
  lemma NameCount(css: Bytes, pos: nat, end: nat)
    requires pos < |css| && css[pos] == AT && RuleEnd(css, pos + 1) == Some(end)
    requires css[pos + 1..end] == SOURCE_RULE ==> BlankAt(css, end)
    ensures CountSources(css, pos) == CountSources(css, end)
  {
    DullRun(css, pos, pos + 1);
    forall i | pos + 1 <= i < end
      ensures !SourceAt(css, i)
    {
      NameHasNoSource(css, pos + 1, end, i);
    }
    NameRunCount(css, pos + 1, end);
  }

  /** An accepted statement counts itself: one `source(` for the exact root import, else none. */
  lemma StatementCount(css: Bytes, st: State, name: Bytes, from: nat, end: nat)
    requires from <= end <= |css| && StatementEnd(css, from) == Some(end)
    requires Statement(css, st, name, from, end).Some?
    ensures CountSources(css, from) + st.found.roots
         == CountSources(css, end) + Statement(css, st, name, from, end).value.roots
  {
    if name == IMPORT && RootForm(Trim(css[from..end])) {
      RootCount(css, from, end);
    } else {
      StatementPlain(css, st, name, from, end);
      NoSourceCount(css, from, end);
    }
  }

  lemma StatementPlain(css: Bytes, st: State, name: Bytes, from: nat, end: nat)
    requires from <= end <= |css| && Statement(css, st, name, from, end).Some?
    requires !(name == IMPORT && RootForm(Trim(css[from..end])))
    ensures NoSourceIn(css, from, end) && Statement(css, st, name, from, end).value.roots == st.found.roots
  {
  }

  /** An accepted `@import` or `@source` from the end of its name to after its semicolon. */
  lemma GraphRuleCount(css: Bytes, st: State, name: Bytes, end: nat)
    requires st.pos < end <= |css| && GraphRule(css, st, name, end).Some?
    ensures var next := GraphRule(css, st, name, end).value;
            && BlankAt(css, end)
            && CountSources(css, end) + st.found.roots == CountSources(css, next.pos) + next.found.roots
  {
    hide Statement;
    var stop := StatementEnd(css, end).value;
    StatementCount(css, st, name, end, stop);
    DullRun(css, stop, stop + 1);
  }

  /** A round at an accepted rule accounts for every `source(` it passes: a root import holds one. */
  lemma AtRuleCount(css: Bytes, st: State)
    requires st.pos < |css| && css[st.pos] == AT && AtRule(css, st).Some?
    ensures var next := AtRule(css, st).value;
            CountSources(css, st.pos) + st.found.roots == CountSources(css, next.pos) + next.found.roots
  {
    hide RuleEnd, GraphRule, CountSources, BlankAt, NameEnd;
    var end := RuleEnd(css, st.pos + 1).value;
    var name := css[st.pos + 1..end];
    if name == IMPORT || name == SOURCE_RULE {
      GraphRuleCount(css, st, name, end);
    }
    NameCount(css, st.pos, end);
  }

  /** Outside `@`, a round passes plain bytes one by one (two hyphens at once) and finds nothing. */
  lemma SimpleRound(css: Bytes, st: State)
    requires st.pos < |css| && Round(css, st).Some? && LexAt(css, st.pos) == Plain
    requires !(css[st.pos] == AT && st.custom.None?)
    ensures var next := Round(css, st).value;
            && next.found == st.found
            && (next.pos == st.pos || next.pos == st.pos + 1
                || (next.pos == st.pos + 2 && css[st.pos] == HYPHEN && At(css, st.pos + 1, HYPHEN)))
            && SourceToken(css, st.pos) == Some(false)
  {
  }

  lemma RoundCount(css: Bytes, st: State)
    requires st.pos < |css| && Round(css, st).Some?
    ensures var next := Round(css, st).value;
            CountSources(css, st.pos) + st.found.roots == CountSources(css, next.pos) + next.found.roots
  {
    hide AtRule, InCustom, SourceToken;
    if LexAt(css, st.pos) == Plain {
      if css[st.pos] == AT && st.custom.None? {
        AtRuleCount(css, st);
      } else {
        SimpleRound(css, st);
        SimpleCount(css, st.pos, Round(css, st).value.pos);
      }
    }
  }

  lemma SimpleCount(css: Bytes, pos: nat, next: nat)
    requires pos < |css| && LexAt(css, pos) == Plain && SourceToken(css, pos) == Some(false)
    requires next == pos || next == pos + 1
          || (next == pos + 2 && css[pos] == HYPHEN && At(css, pos + 1, HYPHEN))
    ensures CountSources(css, pos) == CountSources(css, next)
  {
    SourceTokenMeansElided(css, pos);
    if next == pos + 2 {
      DullRun(css, pos, next);
    }
  }

  lemma {:induction false} ScanCount(css: Bytes, st: State)
    requires Scan(css, st).Some?
    ensures CountSources(css, st.pos) + st.found.roots == Scan(css, st).value.roots
    decreases |css| - st.pos, if st.custom.Some? then 1 else 0
  {
    if st.pos < |css| {
      RoundCount(css, st);
      ScanCount(css, Round(css, st).value);
    }
  }

  /** In an accepted file the only `source(` outside strings, comments and escapes are the counted root imports. */
  lemma OnlyRootImportsSpellSource(css: Bytes)
    requires Accepted(css).Some?
    ensures CountSources(css, Start(css).pos) == Accepted(css).value.roots
  {
    ScanCount(css, Start(css));
  }
}
