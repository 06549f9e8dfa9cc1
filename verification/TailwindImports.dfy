/** The import graph: paths confined to the manifest directory, and the depth-first visit of imported files. */
module TailwindImports {
  import opened Wrappers
  import opened TailwindLex
  import opened TailwindSpec
  import opened TailwindUtf8

  datatype Part = RootDir | CurDir | ParentDir | Normal(name: Bytes)

  type Path = seq<Part>

  /** What the check asks the file system, which does not change while it runs. `plain` is a directory tree without
      symbolic links; `ignoreFiles` lists the ignore files that govern a directory. */
  datatype FileSystem = FileSystem(
    files: set<Path>,
    directories: set<Path>,
    present: Path -> bool,
    symlink: Path -> bool,
    canonical: Path -> Option<Path>,
    read: Path -> Option<Bytes>,
    watchable: Path -> bool,
    plain: Path -> bool,
    ignoreFiles: Path -> Option<seq<Path>>)

  // ---------- paths ----------

  function FirstSlash(text: Bytes): (i: nat)
    ensures i <= |text| && (i < |text| ==> text[i] == SLASH)
  {
    if text == [] || text[0] == SLASH then 0 else 1 + FirstSlash(text[1..])
  }

  /** The components of a relative path. */
  function Parts(text: Bytes): Path
    decreases |text|
  {
    if text == [] then []
    else
      var i := FirstSlash(text);
      var name := text[..i];
      var rest := if i < |text| then Parts(text[i + 1..]) else [];
      if name == [] then rest
      else if name == [DOT] then [CurDir] + rest
      else if name == [DOT, DOT] then [ParentDir] + rest
      else [Normal(name)] + rest
  }

  predicate HasParent(path: Path) {
    path != [] && path != [RootDir]
  }

  /** `pop`: the root directory and the empty path stay. */
  function Up(path: Path): Path {
    if HasParent(path) then path[..|path| - 1] else path
  }

  function Parent(path: Path): Path
    requires HasParent(path)
  {
    path[..|path| - 1]
  }

  const TARGET: Bytes := [116, 97, 114, 103, 101, 116]

  lemma TargetReads()
    ensures TARGET == Lit("target")
  {
  }

  /** Follow the components one by one; a symbolic link on the way is refused. */
  function Walk(fs: FileSystem, current: Path, parts: Path): Option<Path>
    decreases |parts|
  {
    if parts == [] then Some(current)
    else
      match parts[0]
      case RootDir => Walk(fs, [RootDir], parts[1..])
      case CurDir => Walk(fs, current, parts[1..])
      case ParentDir => Walk(fs, Up(current), parts[1..])
      case Normal(_) =>
        if fs.symlink(current + [parts[0]]) then None else Walk(fs, current + [parts[0]], parts[1..])
  }

  /** What `confined` requires of the canonical path. */
  predicate Inside(fs: FileSystem, root: Path, canonical: Path, directory: bool) {
    && root <= canonical
    && Normal(TARGET) !in canonical[|root|..]
    && canonical in (if directory then fs.directories else fs.files)
  }

  function Confined(fs: FileSystem, root: Path, path: Path, directory: bool): (r: Option<Path>)
    ensures r.Some? ==> Inside(fs, root, r.value, directory)
  {
    match Walk(fs, [], path)
    case None => None
    case Some(current) =>
      match fs.canonical(current)
      case None => None
      case Some(canonical) => if Inside(fs, root, canonical, directory) then Some(canonical) else None
  }

  /** No directory on the way to `path`, nor `path` itself, is a symbolic link. */
  predicate LinkFree(fs: FileSystem, path: Path) {
    forall k :: 0 < k <= |path| && path[k - 1].Normal? ==> !fs.symlink(path[..k])
  }

  /** Whatever was pushed and popped before, the walk ends where no ancestor is a symbolic link. */
  lemma {:induction false} WalkIsLinkFree(fs: FileSystem, current: Path, parts: Path)
    requires LinkFree(fs, current) && Walk(fs, current, parts).Some?
    ensures LinkFree(fs, Walk(fs, current, parts).value)
    decreases |parts|
  {
    if parts != [] {
      var next := match parts[0] case RootDir => [RootDir] case CurDir => current case ParentDir => Up(current)
                                 case Normal(_) => current + [parts[0]];
      forall k | 0 < k <= |next| && next[k - 1].Normal?
        ensures !fs.symlink(next[..k])
      {
        if k <= |current| && next[..k] == current[..k] {
          assert current[k - 1] == next[..k][k - 1];
        } else {
          assert next[..k] == next;
        }
      }
      WalkIsLinkFree(fs, next, parts[1..]);
    }
  }

  /** A confined path lies under the root, outside `target`, is of the right kind, and is the canonical form of a
      path none of whose ancestors is a symbolic link. */
  lemma ConfinedIsSafe(fs: FileSystem, root: Path, path: Path, directory: bool)
    requires Confined(fs, root, path, directory).Some?
    ensures var p := Confined(fs, root, path, directory).value;
            && Inside(fs, root, p, directory)
            && exists current :: Walk(fs, [], path) == Some(current) && LinkFree(fs, current)
                                 && fs.canonical(current) == Some(p)
  {
    WalkIsLinkFree(fs, [], path);
  }

  /** `confined`: the loop over the components. */
  method Confine(fs: FileSystem, root: Path, path: Path, directory: bool) returns (r: Option<Path>)
    ensures r == Confined(fs, root, path, directory)
  {
    var current: Path := [];
    for i := 0 to |path|
      invariant Walk(fs, current, path[i..]) == Walk(fs, [], path)
    {
      assert path[i..][1..] == path[i + 1..];
      match path[i]
      case RootDir => current := [RootDir];
      case CurDir =>
      case ParentDir => current := Up(current);
      case Normal(_) =>
        current := current + [path[i]];
        if fs.symlink(current) { return None; }
    }
    var canonical := fs.canonical(current);
    if canonical.None? { return None; }
    if !(root <= canonical.value) { return None; }
    if Normal(TARGET) in canonical.value[|root|..] { return None; }
    if directory && canonical.value !in fs.directories { return None; }
    if !directory && canonical.value !in fs.files { return None; }
    return canonical;
  }

  // ---------- one file ----------

  /** `read_to_string` refuses what is not UTF-8. */
  function Rules(fs: FileSystem, file: Path): Option<Directives> {
    match fs.read(file)
    case None => None
    case Some(css) => if ValidUtf8(css) then Accepted(css) else None
  }

  predicate AllWatchable(fs: FileSystem, paths: seq<Path>) {
    forall i :: 0 <= i < |paths| ==> fs.watchable(paths[i])
  }

  /** The source directories, each once, and what they add to the watch list. */
  function Sources(fs: FileSystem, root: Path, dir: Path, sources: seq<Bytes>, known: set<Path>):
    Option<(set<Path>, seq<Path>)>
    decreases |sources|
  {
    if sources == [] then Some((known, []))
    else
      match Confined(fs, root, dir + Parts(sources[0]), true)
      case None => None
      case Some(d) =>
        if d in known || !fs.watchable(d) || !fs.plain(d) then None
        else
          match fs.ignoreFiles(d)
          case None => None
          case Some(ignored) =>
            if !AllWatchable(fs, ignored) then None
            else
              match Sources(fs, root, dir, sources[1..], known + {d})
              case None => None
              case Some((all, more)) => Some((all, [d] + ignored + more))
  }

  /** What a file contributes on its own. */
  datatype Page = Page(imports: seq<Bytes>, sources: set<Path>, watches: seq<Path>)

  function PageOf(fs: FileSystem, root: Path, file: Path, isRoot: bool): (r: Option<Page>)
    ensures r.Some? ==> HasParent(file)
  {
    if !fs.watchable(file) || !HasParent(file) then None
    else
      match Rules(fs, file)
      case None => None
      case Some(rules) =>
        if isRoot then
          if rules.roots != 1 || rules.sources == [] then None
          else
            match Sources(fs, root, Parent(file), rules.sources, {})
            case None => None
            case Some((dirs, watches)) => Some(Page(rules.imports, dirs, watches))
        else if rules.roots != 0 || rules.sources != [] then None
        else Some(Page(rules.imports, {}, []))
  }

  // ---------- the visit as a function ----------

  function SetOf(s: seq<Path>): set<Path> {
    set p | p in s
  }

  /** The files visited from `file` on, in order; `None` is an error. */
  function Visited(fs: FileSystem, root: Path, file: Path, isRoot: bool, seen: set<Path>): (r: Option<seq<Path>>)
    requires file in fs.files
    ensures r.Some? ==> r.value != [] && r.value[0] == file
    decreases fs.files - seen, 0
  {
    if file in seen then None
    else
      match PageOf(fs, root, file, isRoot)
      case None => None
      case Some(page) =>
        match VisitedAll(fs, root, Parent(file), page.imports, seen + {file})
        case None => None
        case Some(more) => Some([file] + more)
  }

  function VisitedAll(fs: FileSystem, root: Path, dir: Path, imports: seq<Bytes>, seen: set<Path>): Option<seq<Path>>
    decreases fs.files - seen, |imports| + 1
  {
    if imports == [] then Some([])
    else
      match Confined(fs, root, dir + Parts(imports[0]), false)
      case None => None
      case Some(p) =>
        match Visited(fs, root, p, false, seen)
        case None => None
        case Some(first) =>
          match VisitedAll(fs, root, dir, imports[1..], seen + SetOf(first))
          case None => None
          case Some(more) => Some(first + more)
  }
}
