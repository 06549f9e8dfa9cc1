/** The CSS check as written: cursors moved byte by byte, against the functions of TailwindSpec.
    Every index is in bounds and every string slice falls between characters. */
module TailwindScanner {
  import opened Wrappers
  import opened TailwindLex
  import opened TailwindSpec
  import opened TailwindSources
  import opened TailwindUtf8

  /** Looking for a comment at `pos` slices the bytes from there, so `pos` must be in range. */
  predicate CommentHere(css: Bytes, pos: nat)
    requires pos <= |css|
  {
    StartsComment(css, pos)
  }

  method SkipComment(css: Bytes, start: nat) returns (end: Option<nat>)
    requires StartsComment(css, start)
    ensures end == CommentEnd(css, start + 2)
  {
    var pos := start + 2;
    while pos < |css|
      invariant pos <= |css| && CommentEnd(css, pos) == CommentEnd(css, start + 2)
      decreases |css| - pos
    {
      if css[pos] == BACKSLASH {
        pos := Min(pos + 2, |css|);
      } else if At(css, pos, STAR) && At(css, pos + 1, SLASH) {
        return Some(pos + 2);
      } else {
        pos := pos + 1;
      }
    }
    return None;
  }

  method SkipString(css: Bytes, start: nat) returns (end: Option<nat>)
    requires start < |css| && Quote(css[start])
    ensures end == StringEnd(css, css[start], start + 1)
  {
    var quote := css[start];
    var pos := start + 1;
    while pos < |css|
      invariant StringEnd(css, quote, pos) == StringEnd(css, quote, start + 1)
      decreases |css| - pos
    {
      if css[pos] == BACKSLASH {
        pos := pos + 2;
      } else if css[pos] == quote {
        return Some(pos + 1);
      } else {
        pos := pos + 1;
      }
    }
    return None;
  }

  /** `source_token`, letter by letter through comments. */
  method ReadSourceToken(css: Bytes, pos: nat) returns (found: Option<bool>)
    requires pos < |css|
    ensures found == SourceToken(css, pos)
  {
    if Lower(css[pos]) != SOURCE[0] { return Some(false); }
    var cursor: nat := pos;
    for letter := 0 to |SOURCE|
      invariant cursor <= |css|
      invariant MatchElided(css, cursor, SOURCE[letter..]) == MatchElided(css, pos, SOURCE)
    {
      ghost var from := cursor;
      assert SOURCE[letter..][1..] == SOURCE[letter + 1..];
      while CommentHere(css, cursor)
        invariant cursor <= |css| && SkipComments(css, cursor) == SkipComments(css, from)
        decreases |css| - cursor
      {
        var end := SkipComment(css, cursor);
        if end.None? { return None; }
        cursor := end.value;
      }
      if !(cursor < |css| && Lower(css[cursor]) == SOURCE[letter]) { return Some(false); }
      cursor := cursor + 1;
    }
    return Some(true);
  }

  /** `reject_source_in_statement`. */
  method SourceFree(css: Bytes, start: nat, end: nat) returns (free: bool)
    requires start <= end <= |css|
    ensures free == NoSourceIn(css, start, end)
  {
    var pos := start;
    while pos < end
      invariant pos <= |css| && NoSourceIn(css, pos, end) == NoSourceIn(css, start, end)
      decreases |css| - pos
    {
      if CommentHere(css, pos) {
        var e := SkipComment(css, pos);
        if e.None? { return false; }
        pos := e.value;
      } else if Quote(css[pos]) {
        var e := SkipString(css, pos);
        if e.None? { return false; }
        pos := e.value;
      } else if css[pos] == BACKSLASH {
        pos := Min(pos + 2, end);
      } else {
        var token := ReadSourceToken(css, pos);
        if token != Some(false) { return false; }
        pos := pos + 1;
      }
    }
    return true;
  }

  /** The loop that looks for the semicolon of an import or source statement. */
  method FindStatementEnd(css: Bytes, start: nat) returns (end: Option<nat>)
    requires start <= |css|
    ensures end == StatementEnd(css, start)
  {
    var cursor := start;
    while cursor < |css| && css[cursor] != SEMICOLON
      invariant cursor <= |css| && StatementEnd(css, cursor) == StatementEnd(css, start)
      decreases |css| - cursor
    {
      if CommentHere(css, cursor) {
        var e := SkipComment(css, cursor);
        if e.None? { return None; }
        cursor := e.value;
      } else if Quote(css[cursor]) {
        var e := SkipString(css, cursor);
        if e.None? { return None; }
        cursor := e.value;
      } else if css[cursor] == BACKSLASH {
        var e := SkipEscape(css, cursor);
        if e.None? { return None; }
        cursor := e.value;
      } else if !Ascii(css[cursor]) || css[cursor] == OPEN_BRACE || css[cursor] == CLOSE_BRACE {
        return None;
      } else {
        cursor := cursor + 1;
      }
    }
    if cursor == |css| { return None; }
    return Some(cursor);
  }

  /** The part of the loop body that reads an at-rule; `None` is an error. */
  method ReadAtRule(css: Bytes, st: State) returns (next: Option<State>)
    requires ValidUtf8(css) && st.pos < |css| && css[st.pos] == AT && Boundary(css, st.pos) && HeadOk(st)
    ensures next == AtRule(css, st)
    ensures next.Some? ==> next.value == st.(pos := next.value.pos, content := next.value.content, found := next.value.found)
  {
    hide CharsFrom, AllowedRule, MiscasedRule;
    var start := st.pos + 1;
    AfterAscii(css, st.pos);
    var end := start;
    while end < |css| && (Letter(css[end]) || css[end] == HYPHEN)
      invariant start <= end <= |css| && Boundary(css, end) && NameEnd(css, end) == NameEnd(css, start)
    {
      AfterAscii(css, end);
      end := end + 1;
    }
    assert end == NameEnd(css, start);
    if CommentHere(css, end) {
      var shown := StrSlice(css, start, end);
      return None;
    }
    if start < |css| && !Ascii(css[start]) { return None; }
    var name := StrSlice(css, start, end);
    if MiscasedRule(name) { return None; }
    if name == [] || (end < |css| && (Digit(css[end]) || css[end] == UNDERSCORE)) { return None; }
    if !AllowedRule(name) { return None; }
    if name != IMPORT && name != SOURCE_RULE {
      return Some(st.(pos := end, content := true));
    }
    next := ReadGraphRule(css, st, name, end);
  }

  /** The rest of the loop body for an import or source statement. */
  method ReadGraphRule(css: Bytes, st: State, name: Bytes, end: nat) returns (next: Option<State>)
    requires ValidUtf8(css) && st.pos < end <= |css| && Boundary(css, st.pos) && Boundary(css, end) && HeadOk(st)
    requires name == IMPORT || name == SOURCE_RULE
    ensures next == GraphRule(css, st, name, end)
    ensures next.Some? ==> next.value == st.(pos := next.value.pos, content := false, found := next.value.found)
  {
    hide CharsFrom, NoSourceIn, QuotedOnly, RelativeCss, NearMissRoot, RootForm, Trim, SourcePath;
    if st.content {
      var before := StrSlice(css, 0, st.pos);
      return None;
    }
    if !BlankAt(css, end) { return None; }
    var cursor := FindStatementEnd(css, end);
    if cursor.None? { return None; }
    AfterAsciiStop(css, cursor.value);
    var argument := Trim(StrSlice(css, end, cursor.value));
    var found := st.found;
    if name == IMPORT {
      if RootForm(argument) {
        if st.depth != 0 || st.paren != 0 { return None; }
        found := found.(roots := found.roots + 1);
      } else {
        if NearMissRoot(argument) { return None; }
        var free := SourceFree(css, end, cursor.value);
        if !free { return None; }
        var path := QuotedOnly(argument);
        if path.None? { return None; }
        if !RelativeCss(path.value) { return None; }
        found := found.(imports := found.imports + [path.value]);
      }
    } else {
      var free := SourceFree(css, end, cursor.value);
      if !free { return None; }
      if st.depth != 0 { return None; }
      var path := SourcePath(argument);
      if path.None? { return None; }
      found := found.(sources := found.sources + [path.value]);
    }
    return Some(st.(pos := cursor.value + 1, content := false, found := found));
  }

  /** A string may be cut in front of an ASCII byte. */
  lemma AfterAsciiStop(css: Bytes, pos: nat)
    requires pos < |css| && Ascii(css[pos])
    ensures Boundary(css, pos)
  {
  }

  /** The part of the loop body for a custom property value. */
  method ReadInCustom(css: Bytes, st: State) returns (next: Option<State>)
    requires ValidUtf8(css) && st.pos < |css| && Boundary(css, st.pos) && st.custom.Some?
    ensures next == InCustom(st, css[st.pos])
    ensures next.Some? ==> next.value == st.(pos := next.value.pos, content := next.value.content, custom := next.value.custom)
  {
    var closers := st.custom.value;
    var byte := css[st.pos];
    if byte == AT {
      var before := StrSlice(css, 0, st.pos);
      return None;
    }
    if Closer(byte).Some? {
      closers := closers + [Closer(byte).value];
    } else if IsCloser(byte) {
      if closers != [] && closers[|closers| - 1] == byte {
        closers := closers[..|closers| - 1];
      } else if closers != [] {
        var before := StrSlice(css, 0, st.pos);
        return None;
      } else if byte == CLOSE_BRACE {
        return Some(st.(custom := None));
      }
    } else if byte == SEMICOLON && closers == [] {
      return Some(st.(pos := st.pos + 1, custom := None, content := false));
    }
    return Some(st.(pos := st.pos + 1, custom := Some(closers)));
  }

  /** What a round means for the loop: the rest of the file decides, and the next head is sound. */
  lemma RoundStep(css: Bytes, st: State)
    requires ValidUtf8(css) && st.pos < |css| && Boundary(css, st.pos) && HeadOk(st)
    ensures match Round(css, st)
            case None => Scan(css, st).None?
            case Some(next) => Scan(css, st) == Scan(css, next) && Boundary(css, next.pos) && HeadOk(next)
  {
    hide ValidUtf8;
    if Round(css, st).Some? {
      RoundKeepsHead(css, st);
      RoundKeepsBoundary(css, st);
    }
  }

  lemma BeginScan(css: Bytes)
    requires ValidUtf8(css)
    ensures var st := Start(css);
            st.pos <= |css| && Boundary(css, st.pos) && HeadOk(st) && Scan(css, st) == Accepted(css)
    ensures Boundary(css, 0) && Boundary(css, |css|)
  {
    StartsOnBoundary(css);
    HeadOkAtStart(css);
  }

  lemma EndScan(css: Bytes, st: State)
    requires st.pos >= |css|
    ensures Scan(css, st) == AtEnd(st)
  {
  }

  /** `directives`: every error of the scanner is `None`. */
  method ScanDirectives(css: Bytes) returns (result: Option<Directives>)
    requires ValidUtf8(css)
    ensures result == Accepted(css)
  {
    hide ValidUtf8, SourceToken, AtRule, InCustom, CommentEnd, StringEnd, Scan, HeadOk, Boundary;
    hide Accepted;
    BeginScan(css);
    var pos := if BOM <= css then 3 else 0;
    var depth, parenDepth: nat := 0, 0;
    var content := false;
    var customClosers: Option<Bytes> := None;
    var found := Directives([], [], 0);
    while pos < |css|
      invariant pos <= |css| && Boundary(css, pos)
      invariant HeadOk(State(pos, depth, parenDepth, content, customClosers, found))
      invariant Scan(css, State(pos, depth, parenDepth, content, customClosers, found)) == Accepted(css)
      decreases |css| - pos, if customClosers.Some? then 1 else 0
    {
      ghost var st := State(pos, depth, parenDepth, content, customClosers, found);
      RoundStep(css, st);
      if CommentHere(css, pos) {
        var e := SkipComment(css, pos);
        if e.None? { return None; }
        pos := e.value;
        continue;
      }
      if Quote(css[pos]) {
        var e := SkipString(css, pos);
        if e.None? { return None; }
        pos := e.value;
        content := true;
        continue;
      }
      if css[pos] == BACKSLASH {
        var e := SkipEscape(css, pos);
        if e.None? { return None; }
        pos := e.value;
        content := true;
        continue;
      }
      if !Ascii(css[pos]) { return None; }
      var token := ReadSourceToken(css, pos);
      if token != Some(false) { return None; }
      if customClosers.Some? {
        var next := ReadInCustom(css, State(pos, depth, parenDepth, content, customClosers, found));
        if next.None? { return None; }
        pos, content, customClosers := next.value.pos, next.value.content, next.value.custom;
        continue;
      }
      if !content && At(css, pos, HYPHEN) && At(css, pos + 1, HYPHEN) {
        customClosers := Some([]);
        content := true;
        pos := pos + 2;
        continue;
      }
      if css[pos] == OPEN_PAREN {
        parenDepth := parenDepth + 1;
        content := true;
        pos := pos + 1;
        continue;
      }
      if css[pos] == CLOSE_PAREN {
        if parenDepth == 0 { return None; }
        parenDepth := parenDepth - 1;
        content := true;
        pos := pos + 1;
        continue;
      }
      if parenDepth != 0 && (css[pos] == OPEN_BRACE || css[pos] == CLOSE_BRACE) { return None; }
      if css[pos] == OPEN_BRACE {
        depth := depth + 1;
        content := false;
        pos := pos + 1;
        continue;
      }
      if css[pos] == CLOSE_BRACE {
        if depth == 0 { return None; }
        depth := depth - 1;
        content := false;
        pos := pos + 1;
        continue;
      }
      if css[pos] != AT {
        if css[pos] == SEMICOLON && parenDepth == 0 {
          content := false;
        } else if !BlankAt(css, pos) {
          content := true;
        }
        pos := pos + 1;
        continue;
      }
      var next := ReadAtRule(css, State(pos, depth, parenDepth, content, customClosers, found));
      if next.None? { return None; }
      pos, content, found := next.value.pos, next.value.content, next.value.found;
    }
    EndScan(css, State(pos, depth, parenDepth, content, customClosers, found));
    if depth != 0 { return None; }
    if parenDepth != 0 { return None; }
    if customClosers.Some? && customClosers.value != [] {
      var all := StrSlice(css, 0, |css|);
      return None;
    }
    return Some(found);
  }
}
