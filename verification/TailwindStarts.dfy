/** Where statements start: the exact meaning of the scanner's content flag, in the bytes of the file. */
module TailwindStarts {
  import opened Wrappers
  import opened TailwindLex
  import opened TailwindSpec
  import opened TailwindSources

  /** Nothing but blanks and comments between `pos` and `end`. */
  predicate OnlyBlanks(css: Bytes, pos: nat, end: nat)
    decreases |css| - pos
  {
    || pos == end
    || (pos < end && pos < |css|
        && match LexAt(css, pos)
           case Comment(e) => OnlyBlanks(css, e, end)
           case Plain => BlankAt(css, pos) && OnlyBlanks(css, pos + 1, end)
           case _ => false)
  }

  /** The round from `st` to `next` ends a statement: its last byte is a brace outside custom property values, or a
      semicolon outside parentheses and outside the groups of such a value. */
  predicate EndsStatement(css: Bytes, st: State, next: State) {
    && st.pos < next.pos <= |css| && LexAt(css, st.pos) == Plain
    && var last := css[next.pos - 1];
       || ((last == OPEN_BRACE || last == CLOSE_BRACE) && st.custom.None?)
       || (last == SEMICOLON && st.paren == 0 && (st.custom.None? || st.custom == Some([])))
  }

  /** A round that reads a blank or a comment outside custom property values. */
  predicate BlankRound(css: Bytes, st: State) {
    && st.pos < |css| && st.custom.None?
    && (LexAt(css, st.pos).Comment? || (LexAt(css, st.pos) == Plain && BlankAt(css, st.pos)))
  }

  // ---------- one round ----------

  /** A round clears the flag exactly by ending a statement, leaves it alone at blanks and comments, and raises it at
      everything else. */
  lemma RoundContent(css: Bytes, st: State)
    requires st.pos < |css| && HeadOk(st) && Round(css, st).Some?
    ensures var next := Round(css, st).value;
            && (EndsStatement(css, st, next) ==> !next.content && next.custom.None? && !BlankRound(css, st))
            && (!EndsStatement(css, st, next) && BlankRound(css, st) ==>
                  next.content == st.content && next.custom.None? && next.pos == BlankEnd(css, st.pos))
            && (!EndsStatement(css, st, next) && !BlankRound(css, st) ==> next.content)
  {
    hide AtRule, InCustom, InRule, SourceToken, CommentEnd, StringEnd, LexAt, EndsStatement;
    match LexAt(css, st.pos)
    case Plain =>
      if st.custom.Some? {
        CustomContent(css, st);
      } else if css[st.pos] == AT {
        AtContent(css, st);
      } else {
        RuleContent(css, st);
      }
    case _ => OtherContent(css, st);
  }

  function BlankEnd(css: Bytes, pos: nat): nat
    requires pos < |css|
  {
    match LexAt(css, pos)
    case Comment(e) => e
    case _ => pos + 1
  }

  lemma OtherContent(css: Bytes, st: State)
    requires st.pos < |css| && HeadOk(st) && Round(css, st).Some? && LexAt(css, st.pos) != Plain
    ensures var next := Round(css, st).value;
            && !EndsStatement(css, st, next)
            && (BlankRound(css, st) ==> next.content == st.content && next.custom.None? && next.pos == BlankEnd(css, st.pos))
            && (!BlankRound(css, st) ==> next.content)
  {
    hide LexAt, InCustom, InRule;
  }

  lemma CustomContent(css: Bytes, st: State)
    requires st.pos < |css| && HeadOk(st) && LexAt(css, st.pos) == Plain && st.custom.Some?
    requires InCustom(st, css[st.pos]).Some?
    ensures var next := InCustom(st, css[st.pos]).value;
            && !BlankRound(css, st)
            && (EndsStatement(css, st, next) ==> !next.content && next.custom.None?)
            && (!EndsStatement(css, st, next) ==> next.content)
  {
    hide LexAt;
  }

  lemma RuleContent(css: Bytes, st: State)
    requires st.pos < |css| && HeadOk(st) && LexAt(css, st.pos) == Plain && st.custom.None? && css[st.pos] != AT
    requires InRule(css, st).Some?
    ensures var next := InRule(css, st).value;
            && (EndsStatement(css, st, next) ==> !next.content && next.custom.None? && !BlankRound(css, st))
            && (!EndsStatement(css, st, next) && BlankRound(css, st) ==>
                  next.content == st.content && next.custom.None? && next.pos == st.pos + 1)
            && (!EndsStatement(css, st, next) && !BlankRound(css, st) ==> next.content)
  {
    hide LexAt;
  }

  lemma AtContent(css: Bytes, st: State)
    requires st.pos < |css| && HeadOk(st) && LexAt(css, st.pos) == Plain && st.custom.None? && css[st.pos] == AT
    requires InRule(css, st).Some?
    ensures var next := InRule(css, st).value;
            && !BlankRound(css, st)
            && (EndsStatement(css, st, next) ==> !next.content && next.custom.None?)
            && (!EndsStatement(css, st, next) ==> next.content)
  {
    hide LexAt, RuleEnd, GraphRule;
    var end := RuleEnd(css, st.pos + 1).value;
    var name := css[st.pos + 1..end];
    if name == IMPORT || name == SOURCE_RULE {
      GraphRuleEnds(css, st, name, end);
    } else {
      assert Letter(css[end - 1]) || css[end - 1] == HYPHEN;
    }
  }

  lemma GraphRuleEnds(css: Bytes, st: State, name: Bytes, end: nat)
    requires st.pos < end <= |css| && GraphRule(css, st, name, end).Some?
    ensures var next := GraphRule(css, st, name, end).value;
            && !st.content && !next.content && next.custom == st.custom && css[next.pos - 1] == SEMICOLON && next.pos > st.pos
  {
    hide Statement;
  }

  // ---------- the law ----------

  /** Round `m` is where the statement that round `n` is in starts: the file's first, or the one after a statement's end,
      with nothing but blanks and comments since. */
  ghost predicate StartedAt(css: Bytes, m: nat, n: nat)
    requires m <= n && AfterRounds(css, n).Some?
  {
    && AfterRounds(css, m).Some?
    && (m == 0 || (AfterRounds(css, m - 1).Some?
                   && EndsStatement(css, AfterRounds(css, m - 1).value, AfterRounds(css, m).value)))
    && OnlyBlanks(css, AfterRounds(css, m).value.pos, AfterRounds(css, n).value.pos)
  }

  lemma RoundBefore(css: Bytes, n: nat)
    requires n > 0 && AfterRounds(css, n).Some?
    ensures AfterRounds(css, n - 1).Some?
    ensures var st := AfterRounds(css, n - 1).value;
            st.pos < |css| && Round(css, st) == AfterRounds(css, n) && HeadOk(st)
  {
    hide Round;
    AlwaysHeadOk(css, n - 1);
  }

  lemma {:induction false} RoundsBefore(css: Bytes, m: nat, n: nat)
    requires m <= n && AfterRounds(css, n).Some?
    ensures AfterRounds(css, m).Some? && AfterRounds(css, m).value.pos <= AfterRounds(css, n).value.pos
    decreases n - m
  {
    hide Round, AfterRounds;
    if m < n {
      RoundBefore(css, n);
      RoundAdvances(css, AfterRounds(css, n - 1).value);
      RoundsBefore(css, m, n - 1);
    }
  }

  lemma RoundAdvances(css: Bytes, st: State)
    requires st.pos < |css| && Round(css, st).Some?
    ensures st.pos <= Round(css, st).value.pos
    ensures st.custom.None? ==> st.pos < Round(css, st).value.pos
  {
    hide AtRule, InCustom, InRule, SourceToken, LexAt;
  }

  lemma {:induction false} BlanksExtend(css: Bytes, pos: nat, mid: nat)
    requires OnlyBlanks(css, pos, mid) && pos <= mid < |css|
    requires LexAt(css, mid).Comment? || (LexAt(css, mid) == Plain && BlankAt(css, mid))
    ensures OnlyBlanks(css, pos, BlankEnd(css, mid))
    decreases |css| - pos
  {
    hide LexAt, BlankAt;
    if pos < mid {
      match LexAt(css, pos)
      case Comment(e) => BlanksReach(css, e, mid); BlanksExtend(css, e, mid);
      case Plain => BlanksExtend(css, pos + 1, mid);
    }
  }

  lemma BlanksReach(css: Bytes, pos: nat, end: nat)
    requires OnlyBlanks(css, pos, end)
    ensures pos <= end
  {
  }

  /** A cleared flag has its reason: a start with only blanks since. */
  lemma {:induction false} StartHasReason(css: Bytes, n: nat) returns (m: nat)
    requires AfterRounds(css, n).Some? && AfterRounds(css, n).value.custom.None? && !AfterRounds(css, n).value.content
    ensures m <= n && StartedAt(css, m, n)
    decreases n
  {
    hide Round, OnlyBlanks, EndsStatement, BlankRound;
    if n == 0 {
      m := 0;
      assert OnlyBlanks(css, Start(css).pos, Start(css).pos) by { NothingIsBlank(css, Start(css).pos); }
    } else {
      RoundBefore(css, n);
      var st, next := AfterRounds(css, n - 1).value, AfterRounds(css, n).value;
      RoundContent(css, st);
      if EndsStatement(css, st, next) {
        m := n;
        NothingIsBlank(css, next.pos);
      } else {
        IsBlankRound(css, st);
        m := StartHasReason(css, n - 1);
        BlanksReach(css, AfterRounds(css, m).value.pos, st.pos);
        BlanksExtend(css, AfterRounds(css, m).value.pos, st.pos);
      }
    }
  }

  lemma IsBlankRound(css: Bytes, st: State)
    requires BlankRound(css, st)
    ensures st.pos < |css| && st.custom.None?
    ensures LexAt(css, st.pos).Comment? || (LexAt(css, st.pos) == Plain && BlankAt(css, st.pos))
  {
  }

  lemma NothingIsBlank(css: Bytes, pos: nat)
    ensures OnlyBlanks(css, pos, pos)
  {
  }

  /** From a start on, blanks and comments keep the flag clear. */
  lemma {:induction false} BlanksKeepStart(css: Bytes, m: nat, n: nat)
    requires m <= n && AfterRounds(css, n).Some? && AfterRounds(css, m).Some?
    requires !AfterRounds(css, m).value.content && AfterRounds(css, m).value.custom.None?
    requires OnlyBlanks(css, AfterRounds(css, m).value.pos, AfterRounds(css, n).value.pos)
    ensures !AfterRounds(css, n).value.content && AfterRounds(css, n).value.custom.None?
    decreases n - m
  {
    hide Round, EndsStatement, AfterRounds, LexAt;
    if m < n {
      RoundsBefore(css, m + 1, n);
      RoundBefore(css, m + 1);
      var st := AfterRounds(css, m).value;
      RoundAdvances(css, st);
      RoundContent(css, st);
      BlanksKeepStart(css, m + 1, n);
    }
  }

  lemma {:induction false} StartClears(css: Bytes, m: nat, n: nat)
    requires m <= n && AfterRounds(css, n).Some? && StartedAt(css, m, n)
    ensures !AfterRounds(css, n).value.content && AfterRounds(css, n).value.custom.None?
  {
    hide Round, EndsStatement, OnlyBlanks;
    if m > 0 {
      RoundBefore(css, m);
      RoundContent(css, AfterRounds(css, m - 1).value);
    }
    BlanksKeepStart(css, m, n);
  }

  /** At every loop head outside a custom property value the flag is clear exactly when only blanks and comments lie
      since the start of the file or since the last end of a statement. */
  lemma ContentIsExact(css: Bytes, n: nat)
    requires AfterRounds(css, n).Some? && AfterRounds(css, n).value.custom.None?
    ensures !AfterRounds(css, n).value.content <==> exists m: nat :: m <= n && StartedAt(css, m, n)
  {
    hide StartedAt, AfterRounds;
    if !AfterRounds(css, n).value.content {
      var m := StartHasReason(css, n);
    }
    if m: nat :| m <= n && StartedAt(css, m, n) {
      StartClears(css, m, n);
    }
  }

  /** So an import, a source directory or the root import is found only at such a start. */
  lemma FoundOnlyAtStarts(css: Bytes, n: nat)
    requires AfterRounds(css, n + 1).Some? && AfterRounds(css, n).Some?
    requires AfterRounds(css, n + 1).value.found != AfterRounds(css, n).value.found
    ensures exists m: nat :: m <= n && StartedAt(css, m, n)
  {
    RoundBefore(css, n + 1);
    hide AfterRounds, StartedAt;
    FindingStarts(css, AfterRounds(css, n).value);
    ContentIsExact(css, n);
  }

  lemma FindingStarts(css: Bytes, st: State)
    requires st.pos < |css| && HeadOk(st) && Round(css, st).Some? && Round(css, st).value.found != st.found
    ensures st.custom.None? && !st.content
  {
    hide RuleEnd, Statement, SourceToken, LexAt;
  }
}
