/** Parentheses in accepted files, told by the scanner's own rounds. */
module TailwindBalance {
  import opened Wrappers
  import opened TailwindLex
  import opened TailwindSpec
  import opened TailwindSources
  import opened TailwindNesting

  /** The round that lets a closing parenthesis through without a partner: directly inside a custom property value. */
  predicate StrayRound(css: Bytes, st: State) {
    st.pos < |css| && LexAt(css, st.pos) == Plain && css[st.pos] == CLOSE_PAREN && st.custom == Some([])
  }

  function CountClosers(closers: Bytes): nat {
    if closers == [] then 0
    else CountClosers(closers[..|closers| - 1]) + if closers[|closers| - 1] == CLOSE_PAREN then 1 else 0
  }

  /** The parentheses the scanner has open. */
  function OpenParens(st: State): nat {
    st.paren + if st.custom.Some? then CountClosers(st.custom.value) else 0
  }

  function ParenLevel(text: Bytes, level: nat): Option<nat> {
    Level(text, OPEN_PAREN, CLOSE_PAREN, level)
  }

  /** What counting the rest of the file from here on says. */
  function RestLevel(css: Bytes, st: State): Option<nat> {
    ParenLevel(PlainBytes(css, st.pos), OpenParens(st))
  }

  lemma LevelStep(b: Byte, rest: Bytes, level: nat)
    ensures ParenLevel([b] + rest, level)
         == if b == OPEN_PAREN then ParenLevel(rest, level + 1)
            else if b != CLOSE_PAREN then ParenLevel(rest, level)
            else if level == 0 then None else ParenLevel(rest, level - 1)
  {
    assert ([b] + rest)[1..] == rest;
  }

  lemma PushCounts(closers: Bytes, b: Byte)
    ensures CountClosers(closers + [b]) == CountClosers(closers) + if b == CLOSE_PAREN then 1 else 0
  {
    assert (closers + [b])[..|closers|] == closers;
  }

  lemma PopCounts(closers: Bytes)
    requires closers != []
    ensures CountClosers(closers)
         == CountClosers(closers[..|closers| - 1]) + if closers[|closers| - 1] == CLOSE_PAREN then 1 else 0
  {
  }

  lemma CustomLevel(css: Bytes, st: State)
    requires st.pos < |css| && LexAt(css, st.pos) == Plain && HeadOk(st) && st.custom.Some?
    requires InCustom(st, css[st.pos]).Some?
    ensures RestLevel(css, st) == if StrayRound(css, st) then None else RestLevel(css, InCustom(st, css[st.pos]).value)
  {
    hide LexAt, PlainBytes, Level;
    var b, closers := css[st.pos], st.custom.value;
    PlainStep(css, st.pos);
    LevelStep(b, PlainBytes(css, st.pos + 1), OpenParens(st));
    if Closer(b).Some? {
      PushCounts(closers, Closer(b).value);
    } else if closers != [] {
      PopCounts(closers);
    }
  }

  lemma RuleLevel(css: Bytes, st: State)
    requires st.pos < |css| && LexAt(css, st.pos) == Plain && st.custom.None? && css[st.pos] != AT
    requires InRule(css, st).Some?
    ensures RestLevel(css, st) == RestLevel(css, InRule(css, st).value)
  {
    hide LexAt, PlainBytes, Level;
    PlainStep(css, st.pos);
    LevelStep(css[st.pos], PlainBytes(css, st.pos + 1), OpenParens(st));
    if css[st.pos] == HYPHEN && At(css, st.pos + 1, HYPHEN) {
      QuietIsPlain(css, st.pos + 1);
      PlainStep(css, st.pos + 1);
      LevelStep(HYPHEN, PlainBytes(css, st.pos + 2), OpenParens(st));
    }
  }

  /** A run of bytes without parentheses leaves the level as it is. */
  lemma RunLevel(css: Bytes, lo: nat, hi: nat, level: nat)
    requires lo <= hi <= |css| && forall j :: lo <= j < hi ==> Quiet(css[j]) && Inert(css[j])
    ensures ParenLevel(PlainBytes(css, lo), level) == ParenLevel(PlainBytes(css, hi), level)
  {
    hide PlainBytes, Level;
    PlainRun(css, lo, hi);
    LevelFlat(css[lo..hi], OPEN_PAREN, CLOSE_PAREN, level);
    LevelConcat(css[lo..hi], PlainBytes(css, hi), OPEN_PAREN, CLOSE_PAREN, level);
  }

  lemma AddableBalances(items: seq<Item>)
    requires Addable(Brace, items) && NoBlocks(items)
    ensures BodyOk(Brace, items) && NoStray(Brace, items)
  {
    hide StatementStart;
    EmptySettled(Brace);
    AddSettled(Brace, [], items);
    assert [] + items == items;
    forall i | 0 <= i < |items|
      ensures NoStrayIn(Brace, items[i])
    {
      if items[i].Node? {
        assert ItemOk(Brace, items[i]);
        NoValuesNoStray(items[i].kind, items[i].body);
      }
    }
  }

  lemma GraphRuleLevel(css: Bytes, st: State, name: Bytes, end: nat)
    requires st.pos < end <= |css| && (name == IMPORT || name == SOURCE_RULE) && GraphRule(css, st, name, end).Some?
    ensures ParenLevel(PlainBytes(css, end), OpenParens(st))
         == ParenLevel(PlainBytes(css, GraphRule(css, st, name, end).value.pos), OpenParens(st))
  {
    hide Statement, PlainBytes, Level, Flatten, Addable, NoBlocks, BodyOk, NoStray;
    var stop := StatementEnd(css, end).value;
    var items := ArgumentItems(css, st, name, end, stop);
    AddableBalances(items);
    BodyLevel(Brace, items, OPEN_PAREN, CLOSE_PAREN, OpenParens(st));
    LevelConcat(Flatten(items), PlainBytes(css, stop), OPEN_PAREN, CLOSE_PAREN, OpenParens(st));
    RunLevel(css, stop, stop + 1, OpenParens(st));
  }

  lemma AtLevel(css: Bytes, st: State)
    requires st.pos < |css| && css[st.pos] == AT && st.custom.None? && AtRule(css, st).Some?
    ensures RestLevel(css, st) == RestLevel(css, AtRule(css, st).value)
  {
    hide RuleEnd, GraphRule, PlainBytes, Level;
    var end := RuleEnd(css, st.pos + 1).value;
    var name := css[st.pos + 1..end];
    RunLevel(css, st.pos, end, OpenParens(st));
    if name == IMPORT || name == SOURCE_RULE {
      GraphRuleStarts(css, st, name, end);
      GraphRuleLevel(css, st, name, end);
    }
  }

  /** A round changes nothing about what counting the rest says, but for a stray parenthesis, which has no partner. */
  lemma RoundLevel(css: Bytes, st: State)
    requires st.pos < |css| && HeadOk(st) && Round(css, st).Some?
    ensures RestLevel(css, st) == if StrayRound(css, st) then None else RestLevel(css, Round(css, st).value)
  {
    hide AtRule, InCustom, InRule, SourceToken, Level;
    match LexAt(css, st.pos)
    case Plain =>
      hide LexAt, PlainBytes;
      if st.custom.Some? {
        CustomLevel(css, st);
      } else if css[st.pos] == AT {
        RuleIsAt(css, st);
        AtLevel(css, st);
      } else {
        RuleLevel(css, st);
      }
    case _ =>
  }

  lemma RuleIsAt(css: Bytes, st: State)
    requires st.pos < |css| && css[st.pos] == AT && st.custom.None?
    ensures InRule(css, st) == AtRule(css, st)
  {
    hide AtRule;
  }

  /** No round from number `n` on is stray. */
  ghost predicate NeverStrays(css: Bytes, n: nat) {
    forall m :: m >= n && AfterRounds(css, m).Some? ==> !StrayRound(css, AfterRounds(css, m).value)
  }

  lemma {:induction false} AfterTheEnd(css: Bytes, n: nat, m: nat)
    requires AfterRounds(css, n).Some? && AfterRounds(css, n).value.pos >= |css| && m > n
    ensures AfterRounds(css, m).None?
    decreases m
  {
    hide Round;
    if m > n + 1 {
      AfterTheEnd(css, n, m - 1);
    }
  }

  lemma {:induction false} RestBalancesIff(css: Bytes, n: nat, st: State)
    requires AfterRounds(css, n) == Some(st) && Scan(css, st).Some?
    ensures RestLevel(css, st) == Some(0) <==> NeverStrays(css, n)
    decreases |css| - st.pos, if st.custom.Some? then 1 else 0
  {
    hide Round, RestLevel, StrayRound;
    AlwaysHeadOk(css, n);
    if st.pos >= |css| {
      EndLevel(css, st);
      forall m | m > n
        ensures AfterRounds(css, m).None?
      {
        AfterTheEnd(css, n, m);
      }
    } else {
      RoundLevel(css, st);
      var next := Round(css, st).value;
      assert AfterRounds(css, n + 1) == Some(next);
      RestBalancesIff(css, n + 1, next);
      StraysFrom(css, n);
    }
  }

  lemma EndLevel(css: Bytes, st: State)
    requires st.pos >= |css| && AtEnd(st).Some? && HeadOk(st)
    ensures RestLevel(css, st) == Some(0) && !StrayRound(css, st)
  {
  }

  lemma StraysFrom(css: Bytes, n: nat)
    requires AfterRounds(css, n).Some?
    ensures NeverStrays(css, n) <==> !StrayRound(css, AfterRounds(css, n).value) && NeverStrays(css, n + 1)
  {
    hide StrayRound, AfterRounds;
  }

  /** In an accepted file every parenthesis outside strings, comments and escapes has its partner exactly when no round
      of the scanner meets a closing one directly inside a custom property value. */
  lemma ParenthesesBalanceIff(css: Bytes)
    requires Accepted(css).Some?
    ensures ParenLevel(PlainBytes(css, Start(css).pos), 0) == Some(0) <==> NeverStrays(css, 0)
  {
    hide Scan, StrayRound, PlainBytes, Level;
    var st := Start(css);
    assert AfterRounds(css, 0) == Some(st);
    RestBalancesIff(css, 0, st);
    assert OpenParens(st) == 0 && ParenLevel(PlainBytes(css, st.pos), 0) == RestLevel(css, st);
  }
}
