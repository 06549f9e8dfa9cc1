/** The words of the check in plain text: rule names, refused characters, file names. */
module TailwindWords {
  import opened Wrappers
  import opened TailwindLex
  import opened TailwindSpec

  lemma {:induction false} ListedMeans(name: Bytes, from: nat, to: nat)
    requires from <= to
    ensures Listed(name, from, to) <==> (exists i :: from <= i < to && RuleName(i) == name)
    decreases (to as int) - (from as int)
  {
    hide RuleName;
    if from < to {
      ListedMeans(name, from + 1, to);
    }
  }

  /** The seventeen allowed rules. */
  lemma AllowedRulesRead(name: Bytes)
    ensures AllowedRule(name) <==>
              || name == Lit("import") || name == Lit("source") || name == Lit("media") || name == Lit("supports")
              || name == Lit("layer") || name == Lit("keyframes") || name == Lit("font-face") || name == Lit("theme")
              || name == Lit("utility") || name == Lit("variant") || name == Lit("custom-variant") || name == Lit("apply")
              || name == Lit("container") || name == Lit("property") || name == Lit("starting-style")
              || name == Lit("page") || name == Lit("charset")
  {
    hide Lit;
    GraphRulesRead();
    ListedMeans(name, 0, ALLOWED_COUNT);
    FirstNames();
    LastNames();
    if AllowedRule(name) {
      var i :| 0 <= i < ALLOWED_COUNT && RuleName(i) == name;
      assert i == 0 || i == 1 || i == 2 || i == 3 || i == 4 || i == 5 || i == 6 || i == 7 || i == 8 || i == 9 || i == 10
          || i == 11 || i == 12 || i == 13 || i == 14 || i == 15 || i == 16;
    }
  }

  lemma FirstNames()
    ensures RuleName(0) == Lit("import") && RuleName(1) == Lit("source") && RuleName(2) == Lit("media")
    ensures RuleName(3) == Lit("supports") && RuleName(4) == Lit("layer") && RuleName(5) == Lit("keyframes")
    ensures RuleName(6) == Lit("font-face") && RuleName(7) == Lit("theme") && RuleName(8) == Lit("utility")
  {
    hide Lit;
    GraphRulesRead();
  }

  lemma LastNames()
    ensures RuleName(9) == Lit("variant") && RuleName(10) == Lit("custom-variant") && RuleName(11) == Lit("apply")
    ensures RuleName(12) == Lit("container") && RuleName(13) == Lit("property") && RuleName(14) == Lit("starting-style")
    ensures RuleName(15) == Lit("page") && RuleName(16) == Lit("charset")
  {
    hide Lit;
  }

  /** A name is refused for its case exactly when its lower-case form is an allowed rule or one of the four excluded
      ones, and the name is not that form. */
  lemma MiscasedRulesRead(name: Bytes)
    ensures MiscasedRule(name) <==>
              && name != LowerAll(name)
              && (AllowedRule(LowerAll(name)) || LowerAll(name) == Lit("plugin") || LowerAll(name) == Lit("config")
                  || LowerAll(name) == Lit("reference") || LowerAll(name) == Lit("tailwind"))
  {
    hide Lit, LowerAll;
    var lower := LowerAll(name);
    ListedMeans(lower, 0, ALLOWED_COUNT);
    ListedMeans(lower, 0, KNOWN_COUNT);
    ExcludedNames();
    if Listed(lower, 0, KNOWN_COUNT) {
      var i :| 0 <= i < KNOWN_COUNT && RuleName(i) == lower;
      if i >= ALLOWED_COUNT { assert i == 17 || i == 18 || i == 19 || i == 20; }
    }
  }

  /** Which bytes behind an `@` are read as a rule name: an allowed one, all of the letters and hyphens there, with no
      digit, underscore or comment right behind it. */
  lemma RuleNameMeans(css: Bytes, from: nat, end: nat)
    requires from <= |css|
    ensures RuleEnd(css, from) == Some(end) <==>
              && from < end <= |css| && AllowedRule(css[from..end])
              && (forall i :: from <= i < end ==> Letter(css[i]) || css[i] == HYPHEN)
              && (end < |css| ==> !Letter(css[end]) && !Digit(css[end]) && css[end] != HYPHEN && css[end] != UNDERSCORE
                                  && !(css[end] == SLASH && At(css, end + 1, STAR)))
  {
    hide AllowedRule, MiscasedRule;
    if from < end <= |css| && AllowedRule(css[from..end]) {
      AllowedNameBytes(css[from..end]);
    }
  }

  predicate NameBytes(name: Bytes) {
    name != [] && forall i :: 0 <= i < |name| ==> 97 <= name[i] <= 122 || name[i] == HYPHEN
  }

  lemma FirstNameBytes(i: nat)
    requires i < 6
    ensures NameBytes(RuleName(i))
  {
  }

  lemma MiddleNameBytes(i: nat)
    requires 6 <= i < 12
    ensures NameBytes(RuleName(i))
  {
  }

  lemma LastNameBytes(i: nat)
    requires 12 <= i < ALLOWED_COUNT
    ensures NameBytes(RuleName(i))
  {
  }

  /** Allowed names are lower-case letters and hyphens, so none of them is refused for its case. */
  lemma AllowedNameBytes(name: Bytes)
    requires AllowedRule(name)
    ensures NameBytes(name) && !MiscasedRule(name)
  {
    hide RuleName;
    ListedMeans(name, 0, ALLOWED_COUNT);
    var i :| 0 <= i < ALLOWED_COUNT && RuleName(i) == name;
    if i < 6 { FirstNameBytes(i); } else if i < 12 { MiddleNameBytes(i); } else { LastNameBytes(i); }
    assert LowerAll(name) == name;
  }

  lemma ExcludedNames()
    ensures RuleName(17) == Lit("plugin") && RuleName(18) == Lit("config")
    ensures RuleName(19) == Lit("reference") && RuleName(20) == Lit("tailwind")
  {
    hide Lit;
  }

  /** The characters a source path must not hold, and those no literal may hold. */
  lemma RefusedCharactersRead()
    ensures GLOBS == Lit("*?[]{},!()\\")
    ensures UNQUOTABLE == Lit("'\"\\\n\r")
  {
  }

  lemma RelativeReads(path: Bytes)
    ensures Relative(path) <==> Lit("./") <= path || Lit("../") <= path
  {
    assert Lit("./") == [DOT, SLASH] && Lit("../") == [DOT, DOT, SLASH];
  }

  lemma {:induction false} NoSlashAfter(dir: Bytes, name: Bytes)
    requires SLASH !in name && (dir == [] || dir[|dir| - 1] == SLASH)
    ensures AfterSlash(dir + name) == |dir|
    decreases |name|
  {
    var path := dir + name;
    if name != [] {
      assert path[|path| - 1] == name[|name| - 1];
      assert path[..|path| - 1] == dir + name[..|name| - 1];
      NoSlashAfter(dir, name[..|name| - 1]);
    } else {
      assert path == dir;
    }
  }

  /** The extension is `css` exactly when the last component ends in `.css` and has something before it. */
  lemma CssExtensionReads(dir: Bytes, name: Bytes)
    requires dir == [] || dir[|dir| - 1] == SLASH
    requires name != [] && SLASH !in name && name != [DOT]
    ensures CssExtension(dir + name) <==> |name| > 4 && name[|name| - 4..] == Lit(".css")
  {
    var path := dir + name;
    assert path[|path| - 1] == name[|name| - 1];
    NoSlashAfter(dir, name);
    assert path[|dir|..] == name;
    assert LastComponent(path) == name;
    assert Lit(".css") == [DOT, 99, 115, 115];
    if |name| > 4 {
      var tail := name[|name| - 4..];
      assert tail[0] == name[|name| - 4 + 0] && tail[1] == name[|name| - 4 + 1];
      assert tail[2] == name[|name| - 4 + 2] && tail[3] == name[|name| - 4 + 3];
      assert MatchesAt(name, |name| - 4, [DOT, 99, 115, 115]) <==> name[|name| - 4..] == [DOT, 99, 115, 115];
    }
  }

  /** Slashes and `.` components at the end do not matter. */
  lemma TrailingDotsDoNotMatter(path: Bytes)
    ensures CssExtension(path + [SLASH]) == CssExtension(path)
    ensures CssExtension(path + [SLASH, DOT]) == CssExtension(path)
  {
    assert (path + [SLASH])[..|path|] == path;
    var dotted := path + [SLASH, DOT];
    assert dotted == (path + [SLASH]) + [DOT];
    NoSlashAfter(path + [SLASH], [DOT]);
    assert dotted[|path| + 1..] == [DOT] && dotted[..|path| + 1] == path + [SLASH];
    assert LastComponent(path + [SLASH]) == LastComponent(path);
  }
}
