/** What a path text names, component by component, and which pages and source directories pass. */
module TailwindPaths {
  import opened Wrappers
  import opened TailwindLex
  import opened TailwindSpec
  import opened TailwindUtf8
  import opened TailwindImports

  // ---------- walking ----------

  /** An absolute path of named components, none of which is a symbolic link: what `canonicalize` returns. */
  predicate Rooted(fs: FileSystem, dir: Path) {
    && dir != [] && dir[0] == RootDir && (forall i :: 0 < i < |dir| ==> dir[i].Normal?)
    && LinkFree(fs, dir)
  }

  lemma {:induction false} WalkConcat(fs: FileSystem, current: Path, a: Path, b: Path)
    ensures Walk(fs, current, a + b)
         == match Walk(fs, current, a) case None => None case Some(middle) => Walk(fs, middle, b)
    decreases |a|
  {
    if a == [] {
      assert a + b == b;
    } else {
      assert (a + b)[1..] == a[1..] + b;
      match a[0]
      case RootDir => WalkConcat(fs, [RootDir], a[1..], b);
      case CurDir => WalkConcat(fs, current, a[1..], b);
      case ParentDir => WalkConcat(fs, Up(current), a[1..], b);
      case Normal(_) => if !fs.symlink(current + [a[0]]) { WalkConcat(fs, current + [a[0]], a[1..], b); }
    }
  }

  lemma {:induction false} WalkRooted(fs: FileSystem, dir: Path, k: nat)
    requires Rooted(fs, dir) && 0 < k <= |dir|
    ensures Walk(fs, [], dir[..k]) == Some(dir[..k])
    decreases k
  {
    if k == 1 {
      assert dir[..1] == [RootDir] && dir[..1][1..] == [];
    } else {
      WalkRooted(fs, dir, k - 1);
      assert dir[..k] == dir[..k - 1] + [dir[k - 1]];
      WalkConcat(fs, [], dir[..k - 1], [dir[k - 1]]);
      assert [dir[k - 1]][1..] == [];
    }
  }

  /** From a rooted directory on, only the components that follow matter. */
  lemma FromRooted(fs: FileSystem, dir: Path, parts: Path)
    requires Rooted(fs, dir)
    ensures Walk(fs, [], dir + parts) == Walk(fs, dir, parts)
  {
    WalkRooted(fs, dir, |dir|);
    assert dir[..|dir|] == dir;
    WalkConcat(fs, [], dir, parts);
  }

  lemma SameWalk(fs: FileSystem, root: Path, a: Path, b: Path, directory: bool)
    requires Walk(fs, [], a) == Walk(fs, [], b)
    ensures Confined(fs, root, a, directory) == Confined(fs, root, b, directory)
  {
    hide Walk, Inside;
  }

  // ---------- path texts ----------

  lemma {:induction false} SlashIsFirst(name: Bytes, rest: Bytes)
    requires SLASH !in name && (rest == [] || rest[0] == SLASH)
    ensures FirstSlash(name + rest) == |name|
    decreases |name|
  {
    var text := name + rest;
    if name != [] {
      assert text[0] == name[0] && text[1..] == name[1..] + rest;
      SlashIsFirst(name[1..], rest);
    } else {
      assert text == rest;
    }
  }

  /** The component a name stands for; the empty name stands for none. */
  function Component(name: Bytes): Path {
    if name == [] then [] else if name == Lit(".") then [CurDir] else if name == Lit("..") then [ParentDir] else [Normal(name)]
  }

  lemma PartsOfLast(name: Bytes)
    requires SLASH !in name
    ensures Parts(name) == Component(name)
  {
    assert Lit(".") == [DOT] && Lit("..") == [DOT, DOT];
    SlashIsFirst(name, []);
    assert name + [] == name && name[..|name|] == name;
  }

  lemma PartsOfFirst(name: Bytes, rest: Bytes)
    requires SLASH !in name
    ensures Parts(name + [SLASH] + rest) == Component(name) + Parts(rest)
  {
    assert Lit(".") == [DOT] && Lit("..") == [DOT, DOT];
    var text := name + [SLASH] + rest;
    assert text == name + ([SLASH] + rest);
    SlashIsFirst(name, [SLASH] + rest);
    assert text[..|name|] == name && text[|name| + 1..] == rest;
  }

  /** The laws below in one: what the first component of a path text does. */
  lemma FollowComponent(fs: FileSystem, root: Path, dir: Path, name: Bytes, parts: Path, directory: bool)
    requires Rooted(fs, dir)
    ensures var here := Confined(fs, root, dir + (Component(name) + parts), directory);
            && (name == [] || name == Lit(".") ==> here == Confined(fs, root, dir + parts, directory))
            && (name == Lit("..") ==>
                  here == Confined(fs, root, (if |dir| > 1 then dir[..|dir| - 1] else dir) + parts, directory))
            && (name != [] && name != Lit(".") && name != Lit("..") ==>
                  here == if fs.symlink(dir + [Normal(name)]) then None
                          else Confined(fs, root, dir + [Normal(name)] + parts, directory))
  {
    hide Confined, LinkFree;
    assert Lit(".") == [DOT] && Lit("..") == [DOT, DOT];
    var all := Component(name) + parts;
    FromRooted(fs, dir, all);
    if name == [] {
      assert all == parts;
    } else {
      assert all[1..] == parts && all[0] == Component(name)[0];
      if name == Lit(".") {
        FromRooted(fs, dir, parts);
        SameWalk(fs, root, dir + all, dir + parts, directory);
      } else if name == Lit("..") {
        var up := if |dir| > 1 then dir[..|dir| - 1] else dir;
        UpIsRooted(fs, dir);
        FromRooted(fs, up, parts);
        SameWalk(fs, root, dir + all, up + parts, directory);
      } else {
        FollowName(fs, root, dir, name, parts, directory);
      }
    }
  }

  lemma UpIsRooted(fs: FileSystem, dir: Path)
    requires Rooted(fs, dir)
    ensures var up := if |dir| > 1 then dir[..|dir| - 1] else dir; Rooted(fs, up) && Up(dir) == up
  {
    if |dir| > 1 {
      var up := dir[..|dir| - 1];
      forall k | 0 < k <= |up| && up[k - 1].Normal?
        ensures !fs.symlink(up[..k])
      {
        assert up[..k] == dir[..k] && up[k - 1] == dir[k - 1];
      }
    }
  }

  lemma FollowName(fs: FileSystem, root: Path, dir: Path, name: Bytes, parts: Path, directory: bool)
    requires Rooted(fs, dir)
    ensures Confined(fs, root, dir + ([Normal(name)] + parts), directory)
         == if fs.symlink(dir + [Normal(name)]) then None else Confined(fs, root, dir + [Normal(name)] + parts, directory)
  {
    var all, inner := [Normal(name)] + parts, dir + [Normal(name)];
    FromRooted(fs, dir, all);
    assert all[1..] == parts && all[0] == Normal(name);
    if !fs.symlink(inner) {
      assert inner + parts == dir + all;
    }
  }

  /** `../t` from a directory names what `t` names from the directory above it. */
  lemma ParentFollows(fs: FileSystem, root: Path, dir: Path, rest: Bytes, directory: bool)
    requires Rooted(fs, dir)
    ensures Confined(fs, root, dir + Parts(Lit("../") + rest), directory)
         == Confined(fs, root, (if |dir| > 1 then dir[..|dir| - 1] else dir) + Parts(rest), directory)
  {
    hide Confined, Walk, Parts, Component, Rooted;
    DotsRead(rest);
    PartsOfFirst(Lit(".."), rest);
    FollowComponent(fs, root, dir, Lit(".."), Parts(rest), directory);
  }

  lemma DotsRead(rest: Bytes)
    ensures Lit("../") + rest == Lit("..") + [SLASH] + rest && SLASH !in Lit("..")
    ensures Lit("./") + rest == Lit(".") + [SLASH] + rest && SLASH !in Lit(".")
  {
    assert Lit("..") == [DOT, DOT] && Lit("../") == [DOT, DOT, SLASH] && Lit(".") == [DOT] && Lit("./") == [DOT, SLASH];
  }

  /** `./t` names what `t` names, and so does `t` behind a repeated slash. */
  lemma DotFollows(fs: FileSystem, root: Path, dir: Path, rest: Bytes, directory: bool)
    requires Rooted(fs, dir)
    ensures Confined(fs, root, dir + Parts(Lit("./") + rest), directory) == Confined(fs, root, dir + Parts(rest), directory)
    ensures Confined(fs, root, dir + Parts([SLASH] + rest), directory) == Confined(fs, root, dir + Parts(rest), directory)
  {
    hide Confined, Walk, Parts, Rooted;
    DotsRead(rest);
    PartsOfFirst(Lit("."), rest);
    PartsOfFirst([], rest);
    assert [] + [SLASH] + rest == [SLASH] + rest;
    assert Component([]) + Parts(rest) == Parts(rest);
    FollowComponent(fs, root, dir, Lit("."), Parts(rest), directory);
  }

  /** `name/t` names what `t` names from the directory `name`; a symbolic link of that name is refused. */
  lemma NameFollows(fs: FileSystem, root: Path, dir: Path, name: Bytes, rest: Bytes, directory: bool)
    requires Rooted(fs, dir) && SLASH !in name && name != [] && name != Lit(".") && name != Lit("..")
    ensures Confined(fs, root, dir + Parts(name + [SLASH] + rest), directory)
         == if fs.symlink(dir + [Normal(name)]) then None
            else Confined(fs, root, dir + [Normal(name)] + Parts(rest), directory)
    ensures !fs.symlink(dir + [Normal(name)]) ==> Rooted(fs, dir + [Normal(name)])
  {
    hide Confined, Walk, Parts, Component, Rooted;
    PartsOfFirst(name, rest);
    FollowComponent(fs, root, dir, name, Parts(rest), directory);
    if !fs.symlink(dir + [Normal(name)]) { InnerIsRooted(fs, dir, name); }
  }

  lemma InnerIsRooted(fs: FileSystem, dir: Path, name: Bytes)
    requires Rooted(fs, dir) && !fs.symlink(dir + [Normal(name)])
    ensures Rooted(fs, dir + [Normal(name)])
  {
    var inner := dir + [Normal(name)];
    forall k | 0 < k <= |inner| && inner[k - 1].Normal?
      ensures !fs.symlink(inner[..k])
    {
      if k <= |dir| {
        assert inner[..k] == dir[..k] && inner[k - 1] == dir[k - 1];
      } else {
        assert inner[..k] == inner;
      }
    }
  }

  /** The last component of a path text means the same with and without a slash behind it; an empty text names the
      directory itself. */
  lemma LastFollows(fs: FileSystem, root: Path, dir: Path, name: Bytes, directory: bool)
    requires SLASH !in name
    ensures Confined(fs, root, dir + Parts(name), directory) == Confined(fs, root, dir + Parts(name + [SLASH]), directory)
    ensures Confined(fs, root, dir + Parts([]), directory) == Confined(fs, root, dir, directory)
  {
    hide Confined;
    PartsOfLast(name);
    PartsOfFirst(name, []);
    assert name + [SLASH] + [] == name + [SLASH];
    assert Component(name) + Parts([]) == Component(name);
    assert dir + Parts([]) == dir;
  }

  /** Which path is confined, and to what: the walk meets no link, and the canonical path lies under the root, has no
      component `target` below it, and is a directory or a file as asked. */
  lemma ConfinedMeans(fs: FileSystem, root: Path, path: Path, directory: bool, p: Path)
    ensures Confined(fs, root, path, directory) == Some(p)
       <==> exists current ::
              && Walk(fs, [], path) == Some(current) && LinkFree(fs, current) && fs.canonical(current) == Some(p)
              && root <= p && Normal(Lit("target")) !in p[|root|..]
              && (if directory then p in fs.directories else p in fs.files)
  {
    hide Walk, LinkFree, Lit;
    TargetReads();
    if Walk(fs, [], path).Some? {
      LinkFreeNothing(fs);
      WalkIsLinkFree(fs, [], path);
    }
  }

  lemma LinkFreeNothing(fs: FileSystem)
    ensures LinkFree(fs, [])
  {
  }

  // ---------- pages and source directories ----------

  /** The watch list of source directories: each directory, then the ignore files that govern it. */
  function Watches(dirs: seq<Path>, ignored: seq<seq<Path>>): seq<Path>
    requires |dirs| == |ignored|
  {
    if dirs == [] then [] else [dirs[0]] + ignored[0] + Watches(dirs[1..], ignored[1..])
  }

  /** The named directories resolve to `dirs`, all new and different, without links in their trees, and the build may
      watch them and the ignore files `ignored` that govern them. */
  predicate Resolved(fs: FileSystem, root: Path, dir: Path, named: seq<Bytes>, known: set<Path>,
                     dirs: seq<Path>, ignored: seq<seq<Path>>)
  {
    && |dirs| == |ignored| == |named|
    && (forall i :: 0 <= i < |dirs| ==>
          && Confined(fs, root, dir + Parts(named[i]), true) == Some(dirs[i])
          && dirs[i] !in known && fs.watchable(dirs[i]) && fs.plain(dirs[i])
          && fs.ignoreFiles(dirs[i]) == Some(ignored[i])
          && forall k :: 0 <= k < |ignored[i]| ==> fs.watchable(ignored[i][k]))
    && (forall i, j :: 0 <= i < j < |dirs| ==> dirs[i] != dirs[j])
  }

  /** Which lists of source directories pass, and what they add to the set and to the watch list. */
  lemma SourcesMean(fs: FileSystem, root: Path, dir: Path, named: seq<Bytes>, known: set<Path>, all: set<Path>, watches: seq<Path>)
    ensures Sources(fs, root, dir, named, known) == Some((all, watches))
       <==> exists dirs, ignored ::
              |dirs| == |ignored| && Resolved(fs, root, dir, named, known, dirs, ignored) && all == known + SetOf(dirs)
              && watches == Watches(dirs, ignored)
  {
    hide Sources, Resolved, Watches;
    if Sources(fs, root, dir, named, known) == Some((all, watches)) {
      var dirs, ignored := SourcesResolve(fs, root, dir, named, known);
    }
    if dirs, ignored :| |dirs| == |ignored| && Resolved(fs, root, dir, named, known, dirs, ignored)
                        && all == known + SetOf(dirs) && watches == Watches(dirs, ignored) {
      ResolvedPass(fs, root, dir, named, known, dirs, ignored);
    }
  }

  lemma {:induction false} SourcesResolve(fs: FileSystem, root: Path, dir: Path, named: seq<Bytes>, known: set<Path>)
    returns (dirs: seq<Path>, ignored: seq<seq<Path>>)
    requires Sources(fs, root, dir, named, known).Some?
    ensures |dirs| == |ignored| == |named| && Resolved(fs, root, dir, named, known, dirs, ignored)
    ensures Sources(fs, root, dir, named, known) == Some((known + SetOf(dirs), Watches(dirs, ignored)))
    decreases |named|
  {
    hide Confined;
    dirs, ignored := [], [];
    if named != [] {
      var d := Confined(fs, root, dir + Parts(named[0]), true).value;
      var more, moreIgnored := SourcesResolve(fs, root, dir, named[1..], known + {d});
      dirs, ignored := [d] + more, [fs.ignoreFiles(d).value] + moreIgnored;
      assert dirs[1..] == more && ignored[1..] == moreIgnored;
      assert known + {d} + SetOf(more) == known + SetOf(dirs);
      ResolvedStep(fs, root, dir, named, known, dirs, ignored);
    } else {
      assert known + SetOf(dirs) == known;
    }
  }

  /** One directory more. */
  lemma ResolvedStep(fs: FileSystem, root: Path, dir: Path, named: seq<Bytes>, known: set<Path>,
                     dirs: seq<Path>, ignored: seq<seq<Path>>)
    requires |dirs| == |ignored| == |named| > 0
    ensures Resolved(fs, root, dir, named, known, dirs, ignored)
       <==> && Confined(fs, root, dir + Parts(named[0]), true) == Some(dirs[0])
            && dirs[0] !in known && fs.watchable(dirs[0]) && fs.plain(dirs[0])
            && fs.ignoreFiles(dirs[0]) == Some(ignored[0]) && AllWatchable(fs, ignored[0])
            && Resolved(fs, root, dir, named[1..], known + {dirs[0]}, dirs[1..], ignored[1..])
  {
    hide Confined;
    var rest, restIgnored := dirs[1..], ignored[1..];
    if Resolved(fs, root, dir, named[1..], known + {dirs[0]}, rest, restIgnored) {
      assert forall i :: 0 < i < |dirs| ==> dirs[i] == rest[i - 1] && ignored[i] == restIgnored[i - 1] && named[i] == named[1..][i - 1];
    }
  }

  lemma {:induction false} ResolvedPass(fs: FileSystem, root: Path, dir: Path, named: seq<Bytes>, known: set<Path>,
                                        dirs: seq<Path>, ignored: seq<seq<Path>>)
    requires Resolved(fs, root, dir, named, known, dirs, ignored)
    ensures Sources(fs, root, dir, named, known) == Some((known + SetOf(dirs), Watches(dirs, ignored)))
    decreases |named|
  {
    hide Confined, Resolved;
    assert |dirs| == |ignored| == |named| by { ResolvedLength(fs, root, dir, named, known, dirs, ignored); }
    if named != [] {
      ResolvedStep(fs, root, dir, named, known, dirs, ignored);
      ResolvedPass(fs, root, dir, named[1..], known + {dirs[0]}, dirs[1..], ignored[1..]);
      assert known + {dirs[0]} + SetOf(dirs[1..]) == known + SetOf(dirs) by {
        assert dirs == [dirs[0]] + dirs[1..];
      }
    } else {
      assert known + SetOf(dirs) == known;
    }
  }

  lemma ResolvedLength(fs: FileSystem, root: Path, dir: Path, named: seq<Bytes>, known: set<Path>,
                       dirs: seq<Path>, ignored: seq<seq<Path>>)
    requires Resolved(fs, root, dir, named, known, dirs, ignored)
    ensures |dirs| == |ignored| == |named|
  {
  }

  /** Which files pass on their own: readable, UTF-8, accepted rules; the root file with exactly one root import and at
      least one source directory, any other file with neither. */
  lemma PageMeans(fs: FileSystem, root: Path, file: Path, isRoot: bool, page: Page)
    ensures PageOf(fs, root, file, isRoot) == Some(page)
       <==> && fs.watchable(file) && file != [] && file != [RootDir]
            && exists css ::
                 && fs.read(file) == Some(css) && ValidUtf8(css) && Accepted(css).Some?
                 && var rules := Accepted(css).value;
                    && page.imports == rules.imports
                    && (isRoot ==> rules.roots == 1 && |rules.sources| > 0
                                   && Sources(fs, root, file[..|file| - 1], rules.sources, {})
                                   == Some((page.sources, page.watches)))
                    && (!isRoot ==> rules.roots == 0 && rules.sources == [] && page.sources == {} && page.watches == [])
  {
    hide Sources, ValidUtf8, Accepted;
  }
}
