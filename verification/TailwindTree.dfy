/** The visit accepts exactly the import graphs that are trees. */
module TailwindTree {
  import opened Wrappers
  import opened TailwindLex
  import opened TailwindSpec
  import opened TailwindImports
  import opened TailwindVisit

  /** A file with the files it imports, in order. */
  datatype ImportTree = ImportTree(file: Path, children: seq<ImportTree>)

  /** The files of a tree, each before the files it imports. */
  function Files(tree: ImportTree): seq<Path>
    decreases tree
  {
    [tree.file] + FilesAll(tree.children)
  }

  function FilesAll(trees: seq<ImportTree>): seq<Path>
    decreases trees
  {
    if trees == [] then [] else Files(trees[0]) + FilesAll(trees[1..])
  }

  /** Every file of the tree passes its own checks, and its imports resolve to its children. */
  predicate Unfolds(fs: FileSystem, root: Path, tree: ImportTree, isRoot: bool)
    decreases tree
  {
    && tree.file in fs.files
    && PageOf(fs, root, tree.file, isRoot).Some?
    && UnfoldsAll(fs, root, Parent(tree.file), PageOf(fs, root, tree.file, isRoot).value.imports, tree.children)
  }

  predicate UnfoldsAll(fs: FileSystem, root: Path, dir: Path, imports: seq<Bytes>, trees: seq<ImportTree>)
    decreases trees
  {
    if imports == [] || trees == [] then imports == [] && trees == []
    else
      && Confined(fs, root, dir + Parts(imports[0]), false) == Some(trees[0].file)
      && Unfolds(fs, root, trees[0], false)
      && UnfoldsAll(fs, root, dir, imports[1..], trees[1..])
  }

  predicate Distinct(s: seq<Path>) {
    forall i, j :: 0 <= i < j < |s| ==> s[i] != s[j]
  }

  /** No file twice, and none that was seen before. */
  predicate New(s: seq<Path>, seen: set<Path>) {
    Distinct(s) && forall i :: 0 <= i < |s| ==> s[i] !in seen
  }

  lemma NewConcat(a: seq<Path>, b: seq<Path>, seen: set<Path>)
    ensures New(a + b, seen) <==> New(a, seen) && New(b, seen + SetOf(a))
  {
    var s := a + b;
    if New(s, seen) {
      forall i, j | 0 <= i < j < |a| ensures a[i] != a[j] { assert s[i] != s[j]; }
      forall i, j | 0 <= i < j < |b| ensures b[i] != b[j] { assert s[|a| + i] != s[|a| + j]; }
      forall i | 0 <= i < |a| ensures a[i] !in seen { assert s[i] !in seen; }
      forall j | 0 <= j < |b| ensures b[j] !in seen + SetOf(a) {
        assert s[|a| + j] == b[j] && s[|a| + j] !in seen;
        assert forall i :: 0 <= i < |a| ==> a[i] == s[i] && s[i] != s[|a| + j];
      }
    }
    if New(a, seen) && New(b, seen + SetOf(a)) {
      forall i, j | 0 <= i < j < |s| ensures s[i] != s[j] {
        if i < |a| <= j {
          assert s[j] == b[j - |a|] && s[i] == a[i] && a[i] in SetOf(a);
        }
      }
      forall i | 0 <= i < |s| ensures s[i] !in seen {
        if i >= |a| { assert s[i] == b[i - |a|]; }
      }
    }
  }

  // ---------- the visit and the tree ----------

  /** A successful visit has walked a tree in which no file occurs twice. */
  lemma {:induction false} VisitBuildsTree(fs: FileSystem, root: Path, file: Path, isRoot: bool, seen: set<Path>)
    returns (tree: ImportTree)
    requires file in fs.files && Visited(fs, root, file, isRoot, seen).Some?
    ensures tree.file == file && Unfolds(fs, root, tree, isRoot)
    ensures Files(tree) == Visited(fs, root, file, isRoot, seen).value && New(Files(tree), seen)
    decreases fs.files - seen, 0
  {
    hide PageOf, VisitedAll, New, Visited;
    VisitedStep(fs, root, file, isRoot, seen);
    var page := PageOf(fs, root, file, isRoot).value;
    var children := VisitBuildsTrees(fs, root, Parent(file), page.imports, seen + {file});
    tree := ImportTree(file, children);
    assert SetOf([file]) == {file};
    assert New([file], seen) by { OneIsNew(file, seen); }
    NewConcat([file], FilesAll(children), seen);
  }

  lemma OneIsNew(file: Path, seen: set<Path>)
    ensures New([file], seen) <==> file !in seen
  {
    assert [file][0] == file;
  }

  lemma {:induction false} VisitBuildsTrees(fs: FileSystem, root: Path, dir: Path, imports: seq<Bytes>, seen: set<Path>)
    returns (trees: seq<ImportTree>)
    requires VisitedAll(fs, root, dir, imports, seen).Some?
    ensures UnfoldsAll(fs, root, dir, imports, trees)
    ensures FilesAll(trees) == VisitedAll(fs, root, dir, imports, seen).value && New(FilesAll(trees), seen)
    decreases fs.files - seen, |imports| + 1
  {
    hide PageOf, New, Visited, VisitedAll, Confined;
    VisitedAllStep(fs, root, dir, imports, seen);
    if imports == [] {
      trees := [];
      assert New([], seen) by { NoneIsNew(seen); }
    } else {
      ConfinedFile(fs, root, dir + Parts(imports[0]));
      var p := Confined(fs, root, dir + Parts(imports[0]), false).value;
      var first := VisitBuildsTree(fs, root, p, false, seen);
      var rest := VisitBuildsTrees(fs, root, dir, imports[1..], seen + SetOf(Files(first)));
      trees := [first] + rest;
      NewConcat(Files(first), FilesAll(rest), seen);
    }
  }

  lemma NoneIsNew(seen: set<Path>)
    ensures New([], seen)
  {
  }

  /** Every tree in which no file occurs twice is visited in its order. */
  lemma {:induction false} TreeIsVisited(fs: FileSystem, root: Path, tree: ImportTree, isRoot: bool, seen: set<Path>)
    requires Unfolds(fs, root, tree, isRoot) && New(Files(tree), seen)
    ensures Visited(fs, root, tree.file, isRoot, seen) == Some(Files(tree))
    decreases tree
  {
    hide PageOf, New, Visited, VisitedAll;
    VisitedStep(fs, root, tree.file, isRoot, seen);
    NewConcat([tree.file], FilesAll(tree.children), seen);
    OneIsNew(tree.file, seen);
    assert SetOf([tree.file]) == {tree.file};
    var page := PageOf(fs, root, tree.file, isRoot).value;
    TreesAreVisited(fs, root, Parent(tree.file), page.imports, tree.children, seen + {tree.file});
  }

  lemma {:induction false} TreesAreVisited(fs: FileSystem, root: Path, dir: Path, imports: seq<Bytes>,
                                          trees: seq<ImportTree>, seen: set<Path>)
    requires UnfoldsAll(fs, root, dir, imports, trees) && New(FilesAll(trees), seen)
    ensures VisitedAll(fs, root, dir, imports, seen) == Some(FilesAll(trees))
    decreases trees
  {
    hide PageOf, New, Visited, VisitedAll, Confined;
    VisitedAllStep(fs, root, dir, imports, seen);
    if trees != [] {
      NewConcat(Files(trees[0]), FilesAll(trees[1..]), seen);
      TreeIsVisited(fs, root, trees[0], false, seen);
      TreesAreVisited(fs, root, dir, imports[1..], trees[1..], seen + SetOf(Files(trees[0])));
    }
  }

  /** The visit succeeds exactly when the imports from `file` on unfold to a finite tree without a repeated file;
      it then visits the files of that tree in its order. */
  lemma VisitIsTreeCheck(fs: FileSystem, root: Path, file: Path, isRoot: bool, seen: set<Path>, order: seq<Path>)
    requires file in fs.files
    ensures Visited(fs, root, file, isRoot, seen) == Some(order)
       <==> exists tree: ImportTree :: tree.file == file && Unfolds(fs, root, tree, isRoot)
                                       && Files(tree) == order && New(order, seen)
  {
    hide Visited, Unfolds, New;
    if Visited(fs, root, file, isRoot, seen) == Some(order) {
      var tree := VisitBuildsTree(fs, root, file, isRoot, seen);
    }
    if tree: ImportTree :| tree.file == file && Unfolds(fs, root, tree, isRoot) && Files(tree) == order && New(order, seen) {
      TreeIsVisited(fs, root, tree, isRoot, seen);
    }
  }

  // ---------- who imports whom ----------

  /** The files `file` imports, one entry for each import. */
  function Targets(fs: FileSystem, root: Path, file: Path): seq<Path> {
    match Rules(fs, file)
    case None => []
    case Some(rules) => if HasParent(file) then TargetsOf(fs, root, Parent(file), rules.imports) else []
  }

  function TargetsOf(fs: FileSystem, root: Path, dir: Path, imports: seq<Bytes>): seq<Path> {
    if imports == [] then []
    else
      (match Confined(fs, root, dir + Parts(imports[0]), false)
       case None => []
       case Some(p) => [p]) + TargetsOf(fs, root, dir, imports[1..])
  }

  /** All imports of the files listed. */
  function AllTargets(fs: FileSystem, root: Path, files: seq<Path>): multiset<Path> {
    if files == [] then multiset{} else multiset(Targets(fs, root, files[0])) + AllTargets(fs, root, files[1..])
  }

  lemma {:induction false} TargetsConcat(fs: FileSystem, root: Path, a: seq<Path>, b: seq<Path>)
    ensures AllTargets(fs, root, a + b) == AllTargets(fs, root, a) + AllTargets(fs, root, b)
    decreases |a|
  {
    hide Targets;
    if a == [] {
      assert a + b == b;
    } else {
      assert (a + b)[1..] == a[1..] + b;
      TargetsConcat(fs, root, a[1..], b);
    }
  }

  function Roots(trees: seq<ImportTree>): seq<Path> {
    if trees == [] then [] else [trees[0].file] + Roots(trees[1..])
  }

  lemma {:induction false} TargetsAreRoots(fs: FileSystem, root: Path, dir: Path, imports: seq<Bytes>, trees: seq<ImportTree>)
    requires UnfoldsAll(fs, root, dir, imports, trees)
    ensures TargetsOf(fs, root, dir, imports) == Roots(trees)
    decreases trees
  {
    hide Unfolds, Confined;
    if trees != [] {
      TargetsAreRoots(fs, root, dir, imports[1..], trees[1..]);
    }
  }

  lemma PageImports(fs: FileSystem, root: Path, file: Path, isRoot: bool)
    requires PageOf(fs, root, file, isRoot).Some?
    ensures HasParent(file) && Rules(fs, file).Some?
    ensures PageOf(fs, root, file, isRoot).value.imports == Rules(fs, file).value.imports
    ensures Targets(fs, root, file) == TargetsOf(fs, root, Parent(file), PageOf(fs, root, file, isRoot).value.imports)
  {
    hide Rules, TargetsOf;
  }

  /** In a tree the imports are, one for one, the files but the first. */
  lemma {:induction false} TreeTargets(fs: FileSystem, root: Path, tree: ImportTree, isRoot: bool)
    requires Unfolds(fs, root, tree, isRoot)
    ensures AllTargets(fs, root, Files(tree)) + multiset{tree.file} == multiset(Files(tree))
    decreases tree
  {
    hide PageOf, Targets, UnfoldsAll;
    var page := PageOf(fs, root, tree.file, isRoot).value;
    PageImports(fs, root, tree.file, isRoot);
    TargetsAreRoots(fs, root, Parent(tree.file), page.imports, tree.children);
    TreesTargets(fs, root, Parent(tree.file), page.imports, tree.children);
    assert Files(tree)[1..] == FilesAll(tree.children);
  }

  lemma {:induction false} TreesTargets(fs: FileSystem, root: Path, dir: Path, imports: seq<Bytes>, trees: seq<ImportTree>)
    requires UnfoldsAll(fs, root, dir, imports, trees)
    ensures AllTargets(fs, root, FilesAll(trees)) + multiset(Roots(trees)) == multiset(FilesAll(trees))
    decreases trees
  {
    hide Targets, Confined, Unfolds;
    if trees != [] {
      TreeTargets(fs, root, trees[0], false);
      TreesTargets(fs, root, dir, imports[1..], trees[1..]);
      TargetsConcat(fs, root, Files(trees[0]), FilesAll(trees[1..]));
    }
  }

  // ---------- reachability ----------

  /** `path` leads from `from` to `to` along imports. */
  predicate Leads(fs: FileSystem, root: Path, path: seq<Path>, from: Path, to: Path) {
    && path != [] && path[0] == from && path[|path| - 1] == to
    && forall i :: 0 <= i < |path| - 1 ==> path[i + 1] in Targets(fs, root, path[i])
  }

  ghost predicate Reachable(fs: FileSystem, root: Path, from: Path, to: Path) {
    exists path :: Leads(fs, root, path, from, to)
  }

  /** All files a tree's imports lead to are in the tree. */
  lemma TreeIsClosed(fs: FileSystem, root: Path, tree: ImportTree, isRoot: bool, file: Path, target: Path)
    requires Unfolds(fs, root, tree, isRoot) && file in Files(tree) && target in Targets(fs, root, file)
    ensures target in Files(tree)
  {
    hide Targets, Unfolds, Files;
    TreeTargets(fs, root, tree, isRoot);
    TargetCounts(fs, root, Files(tree), file, target);
    assert target in multiset(Files(tree));
  }

  lemma {:induction false} TargetCounts(fs: FileSystem, root: Path, files: seq<Path>, file: Path, target: Path)
    requires file in files && target in Targets(fs, root, file)
    ensures target in AllTargets(fs, root, files)
    decreases |files|
  {
    hide Targets;
    if files[0] != file {
      TargetCounts(fs, root, files[1..], file, target);
    } else {
      assert target in multiset(Targets(fs, root, file));
    }
  }

  lemma {:induction false} ReachedInTree(fs: FileSystem, root: Path, tree: ImportTree, isRoot: bool, path: seq<Path>, to: Path)
    requires Unfolds(fs, root, tree, isRoot) && Leads(fs, root, path, tree.file, to)
    ensures to in Files(tree)
    decreases |path|
  {
    hide Targets, Unfolds;
    if |path| > 1 {
      var n := |path| - 1;
      var before := path[..n];
      forall i | 0 <= i < |before| - 1
        ensures before[i + 1] in Targets(fs, root, before[i])
      {
        assert path[i + 1] in Targets(fs, root, path[i]);
      }
      ReachedInTree(fs, root, tree, isRoot, before, path[n - 1]);
      assert path[n - 1 + 1] in Targets(fs, root, path[n - 1]);
      TreeIsClosed(fs, root, tree, isRoot, path[n - 1], to);
    } else {
      assert Files(tree)[0] == tree.file;
    }
  }

  lemma LeadsOn(fs: FileSystem, root: Path, from: Path, path: seq<Path>, to: Path)
    requires path != [] && Leads(fs, root, path, path[0], to) && path[0] in Targets(fs, root, from)
    ensures Leads(fs, root, [from] + path, from, to)
  {
    hide Targets;
    var all := [from] + path;
    forall i | 0 <= i < |all| - 1
      ensures all[i + 1] in Targets(fs, root, all[i])
    {
      if i > 0 { assert path[i - 1 + 1] in Targets(fs, root, path[i - 1]); }
    }
  }

  lemma {:induction false} TreeIsReached(fs: FileSystem, root: Path, tree: ImportTree, isRoot: bool, to: Path)
    returns (path: seq<Path>)
    requires Unfolds(fs, root, tree, isRoot) && to in Files(tree)
    ensures Leads(fs, root, path, tree.file, to)
    decreases tree
  {
    hide Targets, PageOf, UnfoldsAll;
    if to == tree.file {
      path := [tree.file];
    } else {
      var page := PageOf(fs, root, tree.file, isRoot).value;
      PageImports(fs, root, tree.file, isRoot);
      TargetsAreRoots(fs, root, Parent(tree.file), page.imports, tree.children);
      var below := TreesAreReached(fs, root, Parent(tree.file), page.imports, tree.children, to);
      path := [tree.file] + below;
      LeadsOn(fs, root, tree.file, below, to);
    }
  }

  lemma {:induction false} TreesAreReached(fs: FileSystem, root: Path, dir: Path, imports: seq<Bytes>,
                                          trees: seq<ImportTree>, to: Path)
    returns (path: seq<Path>)
    requires UnfoldsAll(fs, root, dir, imports, trees) && to in FilesAll(trees)
    ensures path != [] && path[0] in Roots(trees) && Leads(fs, root, path, path[0], to)
    decreases trees
  {
    hide Targets, Confined, Unfolds, Leads;
    if to in Files(trees[0]) {
      path := TreeIsReached(fs, root, trees[0], false, to);
      assert path != [] && path[0] == trees[0].file by { LeadsFrom(fs, root, path, trees[0].file, to); }
    } else {
      path := TreesAreReached(fs, root, dir, imports[1..], trees[1..], to);
    }
  }

  lemma LeadsFrom(fs: FileSystem, root: Path, path: seq<Path>, from: Path, to: Path)
    requires Leads(fs, root, path, from, to)
    ensures path != [] && path[0] == from
  {
  }

  // ---------- what an accepted import graph is ----------

  /** On success the visit has seen exactly the files the root file's imports lead to, each once; every import leads
      to another one of them, and none back to the root file: no cycle and no sharing. */
  lemma AcceptedGraphIsTree(fs: FileSystem, root: Path, file: Path, order: seq<Path>)
    requires file in fs.files && Visited(fs, root, file, true, {}) == Some(order)
    ensures Distinct(order) && order[0] == file
    ensures forall f :: f in order <==> Reachable(fs, root, file, f)
    ensures AllTargets(fs, root, order) == multiset(order[1..])
    ensures forall f :: AllTargets(fs, root, order)[f] == if f in order && f != file then 1 else 0
  {
    hide Visited, Unfolds, Leads, AllTargets, Files;
    var tree := VisitBuildsTree(fs, root, file, true, {});
    TreeTargets(fs, root, tree, true);
    assert order == [file] + order[1..];
    assert multiset(order) == multiset{file} + multiset(order[1..]);
    assert AllTargets(fs, root, order) == multiset(order) - multiset{file} == multiset(order[1..]);
    forall f
      ensures f in order <==> Reachable(fs, root, file, f)
    {
      if f in order {
        var path := TreeIsReached(fs, root, tree, true, f);
      }
      if path :| Leads(fs, root, path, file, f) {
        ReachedInTree(fs, root, tree, true, path, f);
      }
    }
    forall f
      ensures multiset(order[1..])[f] == if f in order && f != file then 1 else 0
    {
      CountOnce(order, f);
    }
  }

  lemma CountOnce(order: seq<Path>, f: Path)
    requires Distinct(order) && order != []
    ensures multiset(order[1..])[f] == if f in order && f != order[0] then 1 else 0
  {
    DistinctCount(order, f);
    assert order == [order[0]] + order[1..];
    assert multiset(order)[f] == multiset([order[0]])[f] + multiset(order[1..])[f];
  }

  lemma {:induction false} DistinctCount(order: seq<Path>, f: Path)
    requires Distinct(order)
    ensures multiset(order)[f] == if f in order then 1 else 0
    decreases |order|
  {
    if order != [] {
      var rest := order[1..];
      assert forall i, j :: 0 <= i < j < |rest| ==> rest[i] == order[i + 1] && rest[j] == order[j + 1];
      DistinctCount(rest, f);
      assert order == [order[0]] + rest;
      assert forall j :: 0 <= j < |rest| ==> rest[j] == order[j + 1] && order[0] != order[j + 1];
    }
  }

  /** An imported file: inside the root, no source directory, no root import. */
  predicate PlainImport(fs: FileSystem, root: Path, file: Path) {
    && Inside(fs, root, file, false)
    && Rules(fs, file).Some? && Rules(fs, file).value.roots == 0 && Rules(fs, file).value.sources == []
  }

  lemma {:induction false} ImportsArePlain(fs: FileSystem, root: Path, dir: Path, imports: seq<Bytes>, trees: seq<ImportTree>)
    requires UnfoldsAll(fs, root, dir, imports, trees)
    ensures forall k :: 0 <= k < |FilesAll(trees)| ==> PlainImport(fs, root, FilesAll(trees)[k])
    decreases trees
  {
    hide Rules, Inside, TargetsOf;
    if trees != [] {
      var first, page := trees[0], PageOf(fs, root, trees[0].file, false).value;
      ImportsArePlain(fs, root, Parent(first.file), page.imports, first.children);
      ImportsArePlain(fs, root, dir, imports[1..], trees[1..]);
      var files := FilesAll(trees);
      assert Files(first) == [first.file] + FilesAll(first.children);
      assert files == Files(first) + FilesAll(trees[1..]);
      assert PlainImport(fs, root, first.file);
    }
  }

  /** Every visited file lies under the root and outside `target`; only the root file names source directories, and
      it alone holds the one root import. */
  lemma AcceptedGraphIsConfined(fs: FileSystem, root: Path, relative: Path, file: Path, order: seq<Path>)
    requires Input(fs, root, relative) == Some(file) && Visited(fs, root, file, true, {}) == Some(order)
    ensures forall k :: 0 <= k < |order| ==> Inside(fs, root, order[k], false)
    ensures forall k :: 1 <= k < |order| ==> PlainImport(fs, root, order[k])
    ensures Rules(fs, file).Some? && Rules(fs, file).value.roots == 1 && Rules(fs, file).value.sources != []
  {
    hide Rules, Walk, Visited, New;
    var tree := VisitBuildsTree(fs, root, file, true, {});
    var page := PageOf(fs, root, file, true).value;
    ImportsArePlain(fs, root, Parent(file), page.imports, tree.children);
    forall k | 1 <= k < |order|
      ensures PlainImport(fs, root, order[k])
    {
      assert order[k] == FilesAll(tree.children)[k - 1];
    }
  }
}
