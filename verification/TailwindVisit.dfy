/** `visit` over its mutable state, and the trees it accepts. */
module TailwindVisit {
  import opened Wrappers
  import opened TailwindLex
  import opened TailwindSpec
  import opened TailwindUtf8
  import opened TailwindScanner
  import opened TailwindImports

  // ---------- the program ----------

  /** What one validation has seen so far; `chain` is the path of imports that led here. */
  class VisitState {
    var seen: set<Path>
    var chain: seq<Path>
    var sources: set<Path>
    var watches: seq<Path>

    constructor ()
      ensures seen == {} && chain == [] && sources == {} && watches == []
    {
      seen, chain, sources, watches := {}, [], {}, [];
    }

    /** The directories named by the root file, confined one by one and added to the state's set. */
    method AddSources(fs: FileSystem, root: Path, dir: Path, named: seq<Bytes>) returns (ok: bool)
      modifies this`sources, this`watches
      ensures var added := Sources(fs, root, dir, named, old(sources));
              && ok == added.Some?
              && (ok ==> sources == added.value.0 && watches == old(watches) + added.value.1)
    {
      hide Sources, AllWatchable, After;
      ghost var done: seq<Path> := [];
      AfterNothing(Sources(fs, root, dir, named, sources));
      for i := 0 to |named|
        invariant watches == old(watches) + done
        invariant Sources(fs, root, dir, named, old(sources)) == After(done, Sources(fs, root, dir, named[i..], sources))
      {
        SourcesStep(fs, root, dir, named[i..], sources);
        AfterError(done);
        assert named[i..][1..] == named[i + 1..];
        var directory := Confine(fs, root, dir + Parts(named[i]), true);
        if directory.None? { return false; }
        var d := directory.value;
        if d in sources { return false; }
        sources := sources + {d};
        if !fs.watchable(d) { return false; }
        watches := watches + [d];
        if !fs.plain(d) { return false; }
        var ignored := fs.ignoreFiles(d);
        if ignored.None? { return false; }
        var allowed := WatchIgnored(fs, ignored.value);
        if !allowed { return false; }
        AfterAfter(done, [d] + ignored.value, Sources(fs, root, dir, named[i + 1..], sources));
        done := done + ([d] + ignored.value);
      }
      SourcesEnd(fs, root, dir, named[|named|..], sources, done);
      return true;
    }

    /** `visit`: on success the state gains exactly the visited files, and the chain is what it was. */
    method Visit(fs: FileSystem, root: Path, file: Path, isRoot: bool) returns (ok: bool)
      requires file in fs.files && (isRoot ==> sources == {})
      modifies this
      ensures var order := Visited(fs, root, file, isRoot, old(seen));
              && ok == order.Some?
              && (ok ==>
                    var page := PageOf(fs, root, file, isRoot).value;
                    && seen == old(seen) + SetOf(order.value)
                    && chain == old(chain)
                    && sources == old(sources) + page.sources
                    && watches == old(watches) + Watched(order.value, page.watches))
      decreases fs.files - seen, 0
    {
      hide Visited, VisitedAll, Sources, ValidUtf8, Accepted, Prepend;
      VisitedStep(fs, root, file, isRoot, seen);
      PrependError([file]);
      if file in seen { return false; }
      seen := seen + {file};
      chain := chain + [file];
      if !fs.watchable(file) { return false; }
      watches := watches + [file];
      var css := fs.read(file);
      if css.None? || !ValidUtf8(css.value) { return false; }
      var scanned := ScanDirectives(css.value);
      if scanned.None? { return false; }
      var rules := scanned.value;
      if !HasParent(file) { return false; }
      if isRoot {
        if rules.roots != 1 || rules.sources == [] { return false; }
        var added := AddSources(fs, root, Parent(file), rules.sources);
        if !added { return false; }
      } else if rules.roots != 0 || rules.sources != [] {
        return false;
      }
      ghost var page := PageOf(fs, root, file, isRoot).value;
      var more := VisitImports(fs, root, Parent(file), rules.imports);
      if !more { return false; }
      PrependSome([file], VisitedAll(fs, root, Parent(file), page.imports, old(seen) + {file}).value);
      chain := chain[..|chain| - 1];
      return true;
    }

    /** The loop over a file's imports. */
    method VisitImports(fs: FileSystem, root: Path, dir: Path, imports: seq<Bytes>) returns (ok: bool)
      modifies this
      ensures var more := VisitedAll(fs, root, dir, imports, old(seen));
              && ok == more.Some?
              && (ok ==> seen == old(seen) + SetOf(more.value) && chain == old(chain) && sources == old(sources)
                         && watches == old(watches) + more.value)
      decreases fs.files - seen, |imports| + 1
    {
      hide Visited, VisitedAll, Prepend, Inside;
      ghost var done: seq<Path> := [];
      PrependNothing(VisitedAll(fs, root, dir, imports, seen));
      for i := 0 to |imports|
        invariant seen == old(seen) + SetOf(done) && chain == old(chain) && sources == old(sources)
        invariant watches == old(watches) + done
        invariant VisitedAll(fs, root, dir, imports, old(seen))
               == Prepend(done, VisitedAll(fs, root, dir, imports[i..], seen))
      {
        VisitedAllStep(fs, root, dir, imports[i..], seen);
        assert imports[i..][1..] == imports[i + 1..];
        PrependError(done);
        var path := Confine(fs, root, dir + Parts(imports[i]), false);
        if path.None? { return false; }
        ConfinedFile(fs, root, dir + Parts(imports[i]));
        label Before:
        ghost var first := Visited(fs, root, path.value, false, seen);
        var visited := Visit(fs, root, path.value, false);
        if !visited { return false; }
        ImportedPage(fs, root, path.value, old@Before(seen));
        PrependTwice(done, first.value, VisitedAll(fs, root, dir, imports[i + 1..], seen));
        done := done + first.value;
      }
      VisitedAllStep(fs, root, dir, imports[|imports|..], seen);
      PrependAll(done);
      return true;
    }

    /** `watch_ignore_files`. */
    method WatchIgnored(fs: FileSystem, ignored: seq<Path>) returns (ok: bool)
      modifies this`watches
      ensures ok == AllWatchable(fs, ignored) && (ok ==> watches == old(watches) + ignored)
    {
      for k := 0 to |ignored|
        invariant AllWatchable(fs, ignored[..k]) && watches == old(watches) + ignored[..k]
      {
        if !fs.watchable(ignored[k]) { return false; }
        watches := watches + [ignored[k]];
        assert ignored[..k + 1] == ignored[..k] + [ignored[k]];
      }
      assert ignored[..|ignored|] == ignored;
      return true;
    }
  }

  function Prepend(done: seq<Path>, rest: Option<seq<Path>>): Option<seq<Path>> {
    match rest
    case None => None
    case Some(more) => Some(done + more)
  }

  lemma PrependNothing(rest: Option<seq<Path>>)
    ensures Prepend([], rest) == rest
  {
    if rest.Some? { assert [] + rest.value == rest.value; }
  }

  lemma PrependError(done: seq<Path>)
    ensures Prepend(done, None).None?
  {
  }

  lemma PrependSome(done: seq<Path>, more: seq<Path>)
    ensures Prepend(done, Some(more)) == Some(done + more)
  {
  }

  lemma PrependAll(done: seq<Path>)
    ensures Prepend(done, Some([])) == Some(done)
  {
    var none: seq<Path> := [];
    assert done + none == done;
  }

  lemma ConfinedFile(fs: FileSystem, root: Path, path: Path)
    ensures Confined(fs, root, path, false).Some? ==> Confined(fs, root, path, false).value in fs.files
  {
  }

  lemma PrependTwice(done: seq<Path>, more: seq<Path>, rest: Option<seq<Path>>)
    ensures Prepend(done, Prepend(more, rest)) == Prepend(done + more, rest)
  {
    if rest.Some? { assert done + (more + rest.value) == (done + more) + rest.value; }
  }

  lemma VisitedAllStep(fs: FileSystem, root: Path, dir: Path, imports: seq<Bytes>, seen: set<Path>)
    ensures VisitedAll(fs, root, dir, imports, seen)
         == if imports == [] then Some([])
            else
              match Confined(fs, root, dir + Parts(imports[0]), false)
              case None => None
              case Some(p) =>
                match Visited(fs, root, p, false, seen)
                case None => None
                case Some(first) => Prepend(first, VisitedAll(fs, root, dir, imports[1..], seen + SetOf(first)))
  {
    hide Visited, Confined;
  }

  lemma VisitedStep(fs: FileSystem, root: Path, file: Path, isRoot: bool, seen: set<Path>)
    requires file in fs.files
    ensures Visited(fs, root, file, isRoot, seen)
         == if file in seen then None
            else
              match PageOf(fs, root, file, isRoot)
              case None => None
              case Some(page) =>
                Prepend([file], VisitedAll(fs, root, Parent(file), page.imports, seen + {file}))
  {
    hide VisitedAll, Rules, Sources;
  }

  /** A file that is not the root brings no directories and nothing but itself to watch. */
  lemma ImportedPage(fs: FileSystem, root: Path, file: Path, seen: set<Path>)
    requires file in fs.files && Visited(fs, root, file, false, seen).Some?
    ensures var page, order := PageOf(fs, root, file, false), Visited(fs, root, file, false, seen).value;
            page.Some? && page.value.sources == {} && Watched(order, page.value.watches) == order
  {
    hide VisitedAll, Rules;
  }

  /** The watch list of a visit: the file, then what the root file names, then the imported files. */
  function Watched(order: seq<Path>, named: seq<Path>): seq<Path>
    requires order != []
  {
    [order[0]] + named + order[1..]
  }

  function After(done: seq<Path>, rest: Option<(set<Path>, seq<Path>)>): Option<(set<Path>, seq<Path>)> {
    match rest
    case None => None
    case Some((all, more)) => Some((all, done + more))
  }

  lemma AfterNothing(rest: Option<(set<Path>, seq<Path>)>)
    ensures After([], rest) == rest
  {
    if rest.Some? { assert [] + rest.value.1 == rest.value.1; }
  }

  lemma AfterError(done: seq<Path>)
    ensures After(done, None).None?
  {
  }

  lemma AfterAfter(done: seq<Path>, more: seq<Path>, rest: Option<(set<Path>, seq<Path>)>)
    ensures After(done, After(more, rest)) == After(done + more, rest)
  {
    if rest.Some? { assert done + (more + rest.value.1) == (done + more) + rest.value.1; }
  }

  lemma SourcesEnd(fs: FileSystem, root: Path, dir: Path, named: seq<Bytes>, known: set<Path>, done: seq<Path>)
    requires named == []
    ensures After(done, Sources(fs, root, dir, named, known)) == Some((known, done))
  {
    var none: seq<Path> := [];
    assert done + none == done;
  }

  lemma SourcesStep(fs: FileSystem, root: Path, dir: Path, named: seq<Bytes>, known: set<Path>)
    requires named != []
    ensures Sources(fs, root, dir, named, known)
         == match Confined(fs, root, dir + Parts(named[0]), true)
            case None => None
            case Some(d) =>
              if d in known || !fs.watchable(d) || !fs.plain(d) then None
              else
                match fs.ignoreFiles(d)
                case None => None
                case Some(ignored) =>
                  if !AllWatchable(fs, ignored) then None
                  else After([d] + ignored, Sources(fs, root, dir, named[1..], known + {d}))
  {
  }

  // ---------- the whole check ----------

  /** The JavaScript configuration files that must not lie beside the input. */
  const CONFIGS: seq<Bytes> := [
    Lit("tailwind.config.js"), Lit("tailwind.config.ts"), Lit("tailwind.config.cjs"), Lit("tailwind.config.mjs")]

  predicate Unconfigured(fs: FileSystem, dir: Path) {
    forall i :: 0 <= i < |CONFIGS| ==> !fs.present(dir + [Normal(CONFIGS[i])])
  }

  /** The input file, when it is confined, not the root directory, and has no configuration beside it. */
  function Input(fs: FileSystem, root: Path, relative: Path): (r: Option<Path>)
    ensures r.Some? ==> r.value in fs.files && Confined(fs, root, root + relative, false) == r
  {
    match Confined(fs, root, root + relative, false)
    case None => None
    case Some(input) => if HasParent(input) && Unconfigured(fs, Parent(input)) then Some(input) else None
  }

  /** Which input passes: one that is confined and has none of the four configuration files beside it. */
  lemma InputMeans(fs: FileSystem, root: Path, relative: Path, input: Path)
    ensures Input(fs, root, relative) == Some(input)
       <==> && Confined(fs, root, root + relative, false) == Some(input) && input != [] && input != [RootDir]
            && var dir := input[..|input| - 1];
               && !fs.present(dir + [Normal(Lit("tailwind.config.js"))])
               && !fs.present(dir + [Normal(Lit("tailwind.config.ts"))])
               && !fs.present(dir + [Normal(Lit("tailwind.config.cjs"))])
               && !fs.present(dir + [Normal(Lit("tailwind.config.mjs"))])
  {
    hide Lit, Confined;
    if input != [] && input != [RootDir] {
      var dir := input[..|input| - 1];
      assert Unconfigured(fs, dir)
        <==> && !fs.present(dir + [Normal(CONFIGS[0])]) && !fs.present(dir + [Normal(CONFIGS[1])])
             && !fs.present(dir + [Normal(CONFIGS[2])]) && !fs.present(dir + [Normal(CONFIGS[3])]);
    }
  }

  /** `validate_css_with_watches` for an input below the canonical manifest directory. */
  method ValidateCss(fs: FileSystem, root: Path, relative: Path) returns (r: Option<(Path, seq<Path>)>)
    ensures r.Some? <==>
              Input(fs, root, relative).Some? && Visited(fs, root, Input(fs, root, relative).value, true, {}).Some?
    ensures r.Some? ==>
              var input := Input(fs, root, relative).value;
              var order, page := Visited(fs, root, input, true, {}).value, PageOf(fs, root, input, true);
              r.value.0 == input && page.Some? && r.value.1 == [input] + page.value.watches + order[1..]
  {
    hide Visited, PageOf, Confined, CONFIGS;
    var input := Confine(fs, root, root + relative, false);
    if input.None? { return None; }
    ConfinedFile(fs, root, root + relative);
    if !HasParent(input.value) { return None; }
    for i := 0 to |CONFIGS|
      invariant forall k :: 0 <= k < i ==> !fs.present(Parent(input.value) + [Normal(CONFIGS[k])])
    {
      if fs.present(Parent(input.value) + [Normal(CONFIGS[i])]) { return None; }
    }
    var state := new VisitState();
    var ok := state.Visit(fs, root, input.value, true);
    if !ok { return None; }
    RootPage(fs, root, input.value);
    return Some((input.value, state.watches));
  }

  lemma RootPage(fs: FileSystem, root: Path, file: Path)
    requires file in fs.files && Visited(fs, root, file, true, {}).Some?
    ensures PageOf(fs, root, file, true).Some?
  {
    hide VisitedAll;
  }
}
