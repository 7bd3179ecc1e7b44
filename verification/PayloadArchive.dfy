/** The artifact packager: which regular files a payload directory holds, and the
    order in which the archive lists its members. */
module PayloadArchive {
  import opened Lexicographic
  import opened Wrappers

  datatype Kind = RegularFile | Directory | SymbolicLink | SpecialFile

  /** A directory lists its entries in the order the file system returns them. */
  datatype Node = File | Dir(entries: seq<Entry>) | Symlink | Special

  datatype Entry = Entry(name: string, node: Node)

  /** A path relative to the payload root, by components. */
  type Path = seq<string>

  /** A path and what `lstat` says is there. */
  datatype Seen = Seen(path: Path, kind: Kind)

  datatype Result<+T> = Ok(value: T) | Unsupported(at: Path) | Empty

  function KindOf(node: Node): Kind {
    match node
    case File => RegularFile
    case Dir(_) => Directory
    case Symlink => SymbolicLink
    case Special => SpecialFile
  }

  // ---------------------------------------------------------------- trees

  predicate ValidName(name: string) { name != [] && '/' !in name }

  predicate ValidPath(path: Path) {
    forall i :: 0 <= i < |path| ==> ValidName(path[i])
  }

  predicate NameUnused(name: string, entries: seq<Entry>) {
    forall k :: 0 <= k < |entries| ==> entries[k].name != name
  }

  /** The entries of a directory have usable, distinct names, at every level. */
  predicate WellFormed(entries: seq<Entry>) {
    entries == [] ||
    (ValidName(entries[0].name) && NameUnused(entries[0].name, entries[1..]) &&
     (entries[0].node.Dir? ==> WellFormed(entries[0].node.entries)) && WellFormed(entries[1..]))
  }

  /** What is found by following a path down from a directory, if anything. */
  function KindAt(entries: seq<Entry>, path: Path): Option<Kind>
    requires path != []
    decreases entries
  {
    if entries == [] then None
    else if entries[0].name != path[0] then KindAt(entries[1..], path)
    else if |path| == 1 then Some(KindOf(entries[0].node))
    else if entries[0].node.Dir? then KindAt(entries[0].node.entries, path[1..])
    else None
  }

  /** The same tree, in whatever order its directories list their entries. */
  ghost predicate SameTree(a: seq<Entry>, b: seq<Entry>) {
    forall path :: path != [] ==> KindAt(a, path) == KindAt(b, path)
  }

  /** Everything below a directory, each with its path. */
  function Below(entries: seq<Entry>, at: Path): multiset<Seen>
    decreases entries
  {
    if entries == [] then multiset{} else Under(entries[0], at) + Below(entries[1..], at)
  }

  /** An entry together with everything below it. */
  function Under(e: Entry, at: Path): multiset<Seen>
    decreases e
  {
    multiset{Seen(at + [e.name], KindOf(e.node))} +
    if e.node.Dir? then Below(e.node.entries, at + [e.name]) else multiset{}
  }

  ghost predicate IsAt(entries: seq<Entry>, at: Path, m: Seen) {
    |at| < |m.path| && m.path[..|at|] == at && KindAt(entries, m.path[|at|..]) == Some(m.kind)
  }

  lemma {:induction false} AbsentName(entries: seq<Entry>, path: Path)
    requires path != [] && NameUnused(path[0], entries)
    ensures KindAt(entries, path) == None
    decreases |entries|
  {
    if entries != [] {
      assert entries[0].name != path[0];
      assert NameUnused(path[0], entries[1..]);
      AbsentName(entries[1..], path);
    }
  }

  lemma NothingThere(at: Path, m: Seen)
    ensures !IsAt([], at, m)
  {
  }

  /** `Below` is exactly what lookups find, each once. */
  lemma {:induction false} BelowExact(entries: seq<Entry>, at: Path, m: Seen)
    requires WellFormed(entries)
    ensures Below(entries, at)[m] == (if IsAt(entries, at, m) then 1 else 0)
    decreases entries
  {
    hide IsAt, Under, NameUnused;
    if entries == [] {
      NothingThere(at, m);
    } else {
      var e, rest, p := entries[0], entries[1..], at + [entries[0].name];
      BelowExact(rest, at, m);
      if e.node.Dir? { BelowExact(e.node.entries, p, m); }
      UnderExact(e, rest, at, m);
      assert entries == [e] + rest;
    }
  }

  lemma {:induction false} UnderExact(e: Entry, rest: seq<Entry>, at: Path, m: Seen)
    requires NameUnused(e.name, rest)
    requires e.node.Dir? ==> Below(e.node.entries, at + [e.name])[m] == (if IsAt(e.node.entries, at + [e.name], m) then 1 else 0)
    ensures Under(e, at)[m] + (if IsAt(rest, at, m) then 1 else 0)
            == (if IsAt([e] + rest, at, m) then 1 else 0)
  {
    hide NameUnused, Below;
    var p := at + [e.name];
    assert ([e] + rest)[1..] == rest;
    if |at| < |m.path| && m.path[..|at|] == at {
      var down := m.path[|at|..];
      assert m.path == at + down;
      if down[0] == e.name {
        AbsentName(rest, down);
        assert m.path[..|p|] == p;
        if |down| == 1 {
          assert m.path == p;
          assert KindAt([e] + rest, down) == Some(KindOf(e.node));
        } else {
          assert down[1..] == m.path[|p|..];
          assert KindAt([e] + rest, down) == if e.node.Dir? then KindAt(e.node.entries, down[1..]) else None;
        }
      } else {
        assert m.path[|at|] != p[|at|];
        assert |m.path| >= |p| ==> m.path[..|p|][|at|] == m.path[|at|];
      }
    } else {
      assert |m.path| >= |p| ==> m.path[..|p|][..|at|] == m.path[..|at|];
      assert p[..|at|] == at;
    }
  }

  lemma {:induction false} SameTreeSameBelow(a: seq<Entry>, b: seq<Entry>)
    requires WellFormed(a) && WellFormed(b) && SameTree(a, b)
    ensures Below(a, []) == Below(b, [])
  {
    forall m ensures Below(a, [])[m] == Below(b, [])[m] {
      BelowExact(a, [], m);
      BelowExact(b, [], m);
      assert m.path[0..] == m.path;
    }
  }

  lemma {:induction false} FoundPathIsValid(entries: seq<Entry>, path: Path)
    requires WellFormed(entries) && path != [] && KindAt(entries, path).Some?
    ensures ValidPath(path)
    decreases entries
  {
    if entries[0].name != path[0] {
      FoundPathIsValid(entries[1..], path);
    } else if |path| > 1 {
      FoundPathIsValid(entries[0].node.entries, path[1..]);
      assert path == [path[0]] + path[1..];
    }
  }

  /** Whatever lies on the way to something found is a directory. */
  lemma {:induction false} ParentIsDirectory(entries: seq<Entry>, path: Path, rest: Path)
    requires WellFormed(entries) && path != [] && rest != [] && KindAt(entries, path + rest).Some?
    ensures KindAt(entries, path) == Some(Directory)
    decreases entries
  {
    if entries[0].name != path[0] {
      ParentIsDirectory(entries[1..], path, rest);
    } else if |path| > 1 {
      assert (path + rest)[1..] == path[1..] + rest;
      ParentIsDirectory(entries[0].node.entries, path[1..], rest);
    }
  }

  // ---------------------------------------------------------------- order of entries

  lemma {:induction false} BelowSplit(a: seq<Entry>, b: seq<Entry>, at: Path)
    ensures Below(a + b, at) == Below(a, at) + Below(b, at)
    decreases |a|
  {
    hide Under;
    if a == [] {
      assert a + b == b;
    } else {
      assert (a + b)[1..] == a[1..] + b;
      BelowSplit(a[1..], b, at);
    }
  }

  lemma {:induction false} BelowWithout(a: seq<Entry>, k: nat, at: Path)
    requires k < |a|
    ensures Below(a, at) == Under(a[k], at) + Below(a[..k] + a[k + 1..], at)
  {
    hide Under;
    assert a == a[..k] + a[k..];
    BelowSplit(a[..k], a[k..], at);
    BelowSplit(a[..k], a[k + 1..], at);
    assert a[k..][1..] == a[k + 1..];
  }

  lemma {:induction false} BelowPermute(a: seq<Entry>, b: seq<Entry>, at: Path)
    requires multiset(a) == multiset(b)
    ensures Below(a, at) == Below(b, at)
    decreases |a|
  {
    hide Under;
    if a == [] {
      assert |b| == |multiset(b)| == 0;
    } else {
      assert a[0] in multiset(b);
      var k :| 0 <= k < |b| && b[k] == a[0];
      RemoveMatching(a, b, k);
      BelowPermute(a[1..], b[..k] + b[k + 1..], at);
      BelowWithout(b, k, at);
    }
  }

  lemma {:induction false} SameBelowSameTree(a: seq<Entry>, b: seq<Entry>)
    requires WellFormed(a) && WellFormed(b) && Below(a, []) == Below(b, [])
    ensures SameTree(a, b)
  {
    hide WellFormed, Below;
    forall path | path != [] ensures KindAt(a, path) == KindAt(b, path) {
      forall kind ensures KindAt(a, path) == Some(kind) <==> KindAt(b, path) == Some(kind) {
        BelowExact(a, [], Seen(path, kind));
        BelowExact(b, [], Seen(path, kind));
        assert path[0..] == path;
      }
      var there, here := KindAt(a, path), KindAt(b, path);
      assert there.Some? ==> here == Some(there.value);
      assert here.Some? ==> there == Some(here.value);
    }
  }

  /** The same entries, listed in another order, here and in every directory below. */
  ghost predicate Reordered(a: seq<Entry>, b: seq<Entry>)
    decreases a
  {
    if a == [] then b == []
    else exists k :: 0 <= k < |b| && SameEntry(a[0], b[k]) && Reordered(a[1..], b[..k] + b[k + 1..])
  }

  ghost predicate SameEntry(e: Entry, f: Entry)
    decreases e
  {
    e.name == f.name &&
    if e.node.Dir? then f.node.Dir? && Reordered(e.node.entries, f.node.entries) else e.node == f.node
  }

  lemma {:induction false} ReorderedSameBelow(a: seq<Entry>, b: seq<Entry>, at: Path)
    requires Reordered(a, b)
    ensures Below(a, at) == Below(b, at)
    decreases a
  {
    if a != [] {
      var k :| 0 <= k < |b| && SameEntry(a[0], b[k]) && Reordered(a[1..], b[..k] + b[k + 1..]);
      if a[0].node.Dir? { ReorderedSameBelow(a[0].node.entries, b[k].node.entries, at + [a[0].name]); }
      assert Under(a[0], at) == Under(b[k], at) by { hide Below; }
      hide Under, Reordered, SameEntry;
      ReorderedSameBelow(a[1..], b[..k] + b[k + 1..], at);
      BelowWithout(b, k, at);
    }
  }

  lemma {:induction false} ReorderedSelf(a: seq<Entry>)
    ensures Reordered(a, a)
    decreases a
  {
    if a != [] {
      if a[0].node.Dir? { ReorderedSelf(a[0].node.entries); }
      ReorderedSelf(a[1..]);
      assert a[..0] + a[0 + 1..] == a[1..];
      assert SameEntry(a[0], a[0]);
    }
  }

  lemma {:induction false} PermutedIsReordered(a: seq<Entry>, b: seq<Entry>)
    requires multiset(a) == multiset(b)
    ensures Reordered(a, b)
    decreases |a|
  {
    if a == [] {
      assert |b| == |multiset(b)| == 0;
    } else {
      assert a[0] in multiset(b);
      var k :| 0 <= k < |b| && b[k] == a[0];
      RemoveMatching(a, b, k);
      PermutedIsReordered(a[1..], b[..k] + b[k + 1..]);
      if a[0].node.Dir? { ReorderedSelf(a[0].node.entries); }
      assert SameEntry(a[0], b[k]);
    }
  }

  /** Listing directories in another order, at any depth, does not change the tree. */
  lemma {:induction false} ReorderedIsSameTree(a: seq<Entry>, b: seq<Entry>)
    requires WellFormed(a) && WellFormed(b) && Reordered(a, b)
    ensures SameTree(a, b)
  {
    ReorderedSameBelow(a, b, []);
    hide WellFormed, Reordered, Below, SameTree;
    SameBelowSameTree(a, b);
  }

  // ---------------------------------------------------------------- the traversal

  function EntryName(e: Entry): string { e.name }

  /** The path as the manifest and the archive spell it. */
  function Posix(path: Path): string {
    if path == [] then []
    else if |path| == 1 then path[0]
    else path[0] + "/" + Posix(path[1..])
  }

  function ByPath(m: Seen): string { Posix(m.path) }

  /** A directory still to be read. */
  datatype Pending = Pending(path: Path, entries: seq<Entry>)

  function StackBelow(stack: seq<Pending>): multiset<Seen> {
    if stack == [] then multiset{}
    else StackBelow(stack[..|stack| - 1]) + Below(stack[|stack| - 1].entries, stack[|stack| - 1].path)
  }

  ghost predicate AllOf(s: multiset<Seen>, kind: Kind) {
    forall m :: m in s ==> m.kind == kind
  }

  ghost predicate Supported(s: multiset<Seen>) {
    forall m :: m in s ==> m.kind == RegularFile || m.kind == Directory
  }

  ghost predicate Bad(s: multiset<Seen>, at: Path) {
    Seen(at, SymbolicLink) in s || Seen(at, SpecialFile) in s
  }

  /** `part` is exactly what `whole` has of one kind. */
  ghost predicate ExactlyThe(kind: Kind, part: seq<Seen>, whole: multiset<Seen>) {
    forall m :: multiset(part)[m] == if m.kind == kind then whole[m] else 0
  }

  lemma PushStack(stack: seq<Pending>, top: Pending)
    ensures StackBelow(stack + [top]) == StackBelow(stack) + Below(top.entries, top.path)
  {
    hide Below;
    assert (stack + [top])[..|stack|] == stack;
  }

  lemma PopStack(stack: seq<Pending>)
    requires stack != []
    ensures StackBelow(stack) ==
            StackBelow(stack[..|stack| - 1]) + Below(stack[|stack| - 1].entries, stack[|stack| - 1].path)
  {
  }

  lemma EmptyStack()
    ensures StackBelow([]) == multiset{}
  {
  }

  lemma AllOfNone(kind: Kind)
    ensures AllOf(multiset{}, kind)
  {
  }

  lemma AllOfUnion(a: multiset<Seen>, b: multiset<Seen>, kind: Kind)
    requires AllOf(a, kind) && AllOf(b, kind)
    ensures AllOf(a + b, kind)
  {
  }

  lemma BadWithin(part: multiset<Seen>, whole: multiset<Seen>, at: Path)
    requires Bad(part, at) && part <= whole
    ensures Bad(whole, at)
  {
    assert Seen(at, SymbolicLink) in part ==> Seen(at, SymbolicLink) in whole;
  }

  /** The balance of what is recorded, stacked and unread over one step. */
  lemma Regroup<T>(f: multiset<T>, d: multiset<T>, s: multiset<T>, u: multiset<T>, rest: multiset<T>,
                   f': multiset<T>, d': multiset<T>, s': multiset<T>)
    requires f' + d' + s' == f + s + u
    ensures f' + (d + d') + s' + rest == f + d + s + (u + rest)
    ensures f' + (d + d') + s' == f + d + (s + u)
    ensures |s'| + |d'| + |f'| == |f| + |s| + |u|
  {
    forall x ensures (f' + (d + d') + s' + rest)[x] == (f + d + s + (u + rest))[x] {
      assert (f' + d' + s')[x] == (f + s + u)[x];
    }
    forall x ensures (f' + (d + d') + s')[x] == (f + d + (s + u))[x] {
      assert (f' + d' + s')[x] == (f + s + u)[x];
    }
    assert |f' + d' + s'| == |f'| + |d'| + |s'|;
    assert |f + s + u| == |f| + |s| + |u|;
  }

  lemma FilesAreTheRest(files: seq<Seen>, dirs: multiset<Seen>, whole: multiset<Seen>)
    requires multiset(files) + dirs == whole && AllOf(multiset(files), RegularFile) && AllOf(dirs, Directory)
    ensures ExactlyThe(RegularFile, files, whole) && Supported(whole)
  {
  }

  /** One turn of the loop over a directory's entries, in name order: a file is
      recorded, a directory goes on the stack, anything else stops the traversal. */
  method VisitEntry(e: Entry, at: Path, files: seq<Seen>, stack: seq<Pending>)
    returns (ok: bool, files': seq<Seen>, stack': seq<Pending>, ghost dirs: multiset<Seen>)
    ensures ok ==> multiset(files') + dirs + StackBelow(stack') == multiset(files) + StackBelow(stack) + Under(e, at)
    ensures ok ==> |stack'| == |stack| + |dirs| && |files'| >= |files| && AllOf(dirs, Directory)
    ensures AllOf(multiset(files), RegularFile) ==> AllOf(multiset(files'), RegularFile)
    ensures !ok ==> Bad(Under(e, at), at + [e.name])
  {
    ok, files', stack', dirs := true, files, stack, multiset{};
    var path := at + [e.name];
    match e.node {
      case Dir(inner) =>
        stack' := stack + [Pending(path, inner)];
        dirs := multiset{Seen(path, Directory)};
        PushStack(stack, Pending(path, inner));
      case File =>
        files' := files + [Seen(path, RegularFile)];
      case _ =>
        ok := false;
    }
  }

  method VisitEntries(entries: seq<Entry>, at: Path, files: seq<Seen>, stack: seq<Pending>)
    returns (bad: Option<Path>, files': seq<Seen>, stack': seq<Pending>, ghost dirs: multiset<Seen>)
    requires AllOf(multiset(files), RegularFile)
    ensures bad.None? ==>
              multiset(files') + dirs + StackBelow(stack') == multiset(files) + StackBelow(stack) + Below(entries, at)
    ensures bad.None? ==> |stack'| == |stack| + |dirs| && |files'| >= |files| && AllOf(dirs, Directory)
    ensures AllOf(multiset(files'), RegularFile)
    ensures bad.Some? ==> Bad(Below(entries, at), bad.value)
  {
    hide StackBelow, Under, AllOf, Bad;
    files', stack', dirs := files, stack, multiset{};
    AllOfNone(Directory);
    var k := 0;
    while k < |entries|
      invariant k <= |entries|
      invariant multiset(files') + dirs + StackBelow(stack') + Below(entries[k..], at)
                == multiset(files) + StackBelow(stack) + Below(entries, at)
      invariant |stack'| == |stack| + |dirs| && |files'| >= |files| && AllOf(dirs, Directory) && AllOf(multiset(files'), RegularFile)
      invariant Below(entries[k..], at) <= Below(entries, at)
    {
      assert entries[k..][1..] == entries[k + 1..];
      assert Below(entries[k..], at) == Under(entries[k], at) + Below(entries[k + 1..], at);
      var ok, f, s, d := VisitEntry(entries[k], at, files', stack');
      if !ok {
        BadWithin(Under(entries[k], at), Below(entries, at), at + [entries[k].name]);
        return Some(at + [entries[k].name]), files', stack', dirs;
      }
      AllOfUnion(dirs, d, Directory);
      Regroup(multiset(files'), dirs, StackBelow(stack'), Under(entries[k], at), Below(entries[k + 1..], at),
              multiset(f), d, StackBelow(s));
      files', stack', dirs := f, s, dirs + d;
      k := k + 1;
    }
    assert entries[k..] == [];
    bad := None;
  }

  /** The regular files of a payload directory, sorted by their POSIX path; an entry
      that is neither a file nor a directory, or a payload without files, is refused. */
  method CollectPayloadFiles(root: seq<Entry>) returns (r: Result<seq<Seen>>)
    ensures r.Ok? ==> ExactlyThe(RegularFile, r.value, Below(root, [])) && SortedBy(r.value, ByPath)
    ensures r.Ok? ==> Ascending(r.value, ByPath) && r.value != [] && Supported(Below(root, []))
    ensures r.Unsupported? ==> Bad(Below(root, []), r.at)
    ensures r.Empty? ==> AllOf(Below(root, []), Directory)
  {
    hide SortBy, SortedBy, Ascending, Below, StackBelow, AllOf, Bad, ExactlyThe, Supported;
    var files: seq<Seen> := [];
    var directories := [Pending([], root)];
    ghost var visited := multiset{};
    AllOfNone(RegularFile);
    AllOfNone(Directory);
    EmptyStack();
    PushStack([], Pending([], root));
    assert [] + [Pending([], root)] == directories;
    assert multiset(files) == multiset{};
    while directories != []
      invariant multiset(files) + visited + StackBelow(directories) == Below(root, [])
      invariant AllOf(multiset(files), RegularFile) && AllOf(visited, Directory)
      decreases |StackBelow(directories)| + |directories|
    {
      var top := directories[|directories| - 1];
      PopStack(directories);
      directories := directories[..|directories| - 1];
      var entries := SortBy(top.entries, EntryName);
      SortBySorts(top.entries, EntryName);
      BelowPermute(entries, top.entries, top.path);
      var bad, f, s, d := VisitEntries(entries, top.path, files, directories);
      if bad.Some? {
        BadWithin(Below(entries, top.path), Below(root, []), bad.value);
        return Unsupported(bad.value);
      }
      AllOfUnion(visited, d, Directory);
      Regroup(multiset(files), visited, StackBelow(directories), Below(entries, top.path), multiset{},
              multiset(f), d, StackBelow(s));
      assert |StackBelow(s)| + |d| <= |StackBelow(directories)| + |Below(entries, top.path)|;
      files, directories, visited := f, s, visited + d;
    }
    EmptyStack();
    assert directories == [];
    if files == [] {
      assert multiset(files) == multiset{};
      assert visited == Below(root, []);
      return Empty;
    }
    SortBySorts(files, ByPath);
    r := Ok(SortBy(files, ByPath));
    SortedAscends(r.value, ByPath);
    assert |r.value| == |multiset(r.value)| == |files|;
    FilesAreTheRest(r.value, visited, Below(root, []));
  }

  lemma OneMore(listing: seq<Seen>, k: nat, directories: seq<Seen>)
    requires k < |listing| && Supported(multiset(listing[..k])) && ExactlyThe(Directory, directories, multiset(listing[..k]))
    requires listing[k].kind == RegularFile || listing[k].kind == Directory
    ensures Supported(multiset(listing[..k + 1]))
    ensures ExactlyThe(Directory, if listing[k].kind == Directory then directories + [listing[k]] else directories,
                       multiset(listing[..k + 1]))
  {
    assert listing[..k + 1] == listing[..k] + [listing[k]];
  }

  /** Every directory recorded comes no later than what is still to be looked at. */
  ghost predicate SortedAhead(directories: seq<Seen>, rest: seq<Seen>) {
    SortedBy(directories + rest, ByPath)
  }

  lemma KeepSorted(directories: seq<Seen>, rest: seq<Seen>)
    requires rest != [] && SortedAhead(directories, rest)
    ensures SortedAhead(directories + [rest[0]], rest[1..]) && SortedAhead(directories, rest[1..])
  {
    hide LexLe, ByPath;
    assert directories + [rest[0]] + rest[1..] == directories + rest;
    var fewer := directories + rest[1..];
    forall i, j | 0 <= i < j < |fewer| ensures LexLe(ByPath(fewer[i]), ByPath(fewer[j])) {
      var i', j' := if i < |directories| then i else i + 1, if j < |directories| then j else j + 1;
      assert fewer[i] == (directories + rest)[i'] && fewer[j] == (directories + rest)[j'];
    }
  }

  /** The directories among what a recursive listing returns, in path order. */
  method CollectDirectories(listing: seq<Seen>) returns (r: Result<seq<Seen>>)
    ensures r.Ok? ==> ExactlyThe(Directory, r.value, multiset(listing)) && SortedBy(r.value, ByPath)
    ensures r.Ok? ==> Ascending(r.value, ByPath) && Supported(multiset(listing))
    ensures r.Unsupported? ==> Bad(multiset(listing), r.at)
    ensures !r.Empty?
  {
    hide SortBy, SortedBy, Ascending, SortedAhead, ExactlyThe, Supported;
    var sorted := SortBy(listing, ByPath);
    SortBySorts(listing, ByPath);
    var directories: seq<Seen> := [];
    StartListing(sorted);
    var k := 0;
    while k < |sorted|
      invariant k <= |sorted| && Supported(multiset(sorted[..k]))
      invariant ExactlyThe(Directory, directories, multiset(sorted[..k]))
      invariant SortedAhead(directories, sorted[k..])
    {
      if sorted[k].kind == SymbolicLink || sorted[k].kind == SpecialFile {
        assert sorted[k] in multiset(sorted);
        return Unsupported(sorted[k].path);
      }
      OneMore(sorted, k, directories);
      KeepSorted(directories, sorted[k..]);
      assert sorted[k..][1..] == sorted[k + 1..];
      if sorted[k].kind == Directory {
        directories := directories + [sorted[k]];
      }
      k := k + 1;
    }
    assert sorted[..k] == sorted && sorted[k..] == [];
    EndListing(directories);
    SortedAscends(directories, ByPath);
    r := Ok(directories);
  }

  lemma EndListing(directories: seq<Seen>)
    requires SortedAhead(directories, [])
    ensures SortedBy(directories, ByPath)
  {
    assert directories + [] == directories;
  }

  lemma StartListing(sorted: seq<Seen>)
    requires SortedBy(sorted, ByPath)
    ensures Supported(multiset(sorted[..0])) && ExactlyThe(Directory, [], multiset(sorted[..0]))
    ensures SortedAhead([], sorted[0..])
  {
    assert [] + sorted[0..] == sorted;
  }

  /** The members of the archive, directories and files together, by path. */
  function Members(directories: seq<Seen>, files: seq<Seen>): seq<Seen> {
    SortBy(directories + files, ByPath)
  }

  // ---------------------------------------------------------------- what the archive promises

  predicate NoSlash(name: string) { '/' !in name }

  /** The end of a string, or a slash. */
  predicate StopsName(rest: string) { rest == [] || rest[0] == '/' }

  lemma SlashFree(a: string, s: string)
    requires NoSlash(a)
    ensures if a == [] then a + s == s else (a + s)[0] == a[0] && !StopsName(a + s)
  {
    if a == [] { assert a + s == s; }
  }

  lemma {:induction false} FirstNameUnique(a: string, b: string, s: string, t: string)
    requires NoSlash(a) && NoSlash(b) && StopsName(s) && StopsName(t) && a + s == b + t
    ensures a == b && s == t
    decreases |a|
  {
    SlashFree(a, s);
    SlashFree(b, t);
    if a != [] && b != [] {
      assert (a + s)[1..] == a[1..] + s && (b + t)[1..] == b[1..] + t;
      FirstNameUnique(a[1..], b[1..], s, t);
    }
  }

  function AfterFirst(path: Path): string
    requires path != []
  {
    if |path| == 1 then [] else "/" + Posix(path[1..])
  }

  lemma PosixParts(p: Path)
    requires p != [] && ValidPath(p)
    ensures Posix(p) == p[0] + AfterFirst(p) && NoSlash(p[0]) && StopsName(AfterFirst(p))
    ensures p == [p[0]] + p[1..] && ValidPath(p[1..])
    ensures if |p| == 1 then AfterFirst(p) == [] else AfterFirst(p) != [] && AfterFirst(p)[1..] == Posix(p[1..])
  {
    hide ValidPath;
    FirstName(p);
    if |p| == 1 {
      assert p[0] + [] == p[0];
    } else {
      SlashThen(p[0], Posix(p[1..]));
    }
  }

  lemma FirstName(p: Path)
    requires p != [] && ValidPath(p)
    ensures NoSlash(p[0]) && p == [p[0]] + p[1..] && ValidPath(p[1..])
  {
    assert ValidName(p[0]);
  }

  lemma SlashThen(name: string, rest: string)
    ensures name + "/" + rest == name + ("/" + rest) && ("/" + rest)[1..] == rest && StopsName("/" + rest)
  {}

  lemma {:induction false} PosixInjective(p: Path, q: Path)
    requires p != [] && q != [] && ValidPath(p) && ValidPath(q) && Posix(p) == Posix(q)
    ensures p == q
    decreases |p|
  {
    hide Posix, AfterFirst, ValidPath, NoSlash, StopsName;
    PosixParts(p);
    PosixParts(q);
    FirstNameUnique(p[0], q[0], AfterFirst(p), AfterFirst(q));
    if |p| > 1 && |q| > 1 {
      PosixInjective(p[1..], q[1..]);
    }
  }

  lemma {:induction false} PosixOfLonger(p: Path, q: Path)
    requires p != [] && q != []
    ensures Posix(p + q) == Posix(p) + "/" + Posix(q)
    decreases |p|
  {
    assert (p + q)[1..] == p[1..] + q;
    if |p| > 1 {
      PosixOfLonger(p[1..], q);
    }
  }

  lemma TwiceCountsTwice<T>(s: seq<T>, i: nat, j: nat)
    requires i < j < |s| && s[i] == s[j]
    ensures multiset(s)[s[i]] >= 2
  {
    assert s == s[..i] + [s[i]] + s[i + 1..j] + [s[j]] + s[j + 1..];
  }

  /** No two entries of a tree are spelled the same. */
  lemma {:induction false} SpellingsDistinct(root: seq<Entry>, members: seq<Seen>)
    requires WellFormed(root) && multiset(members) <= Below(root, [])
    ensures KeysDistinct(members, ByPath)
  {
    forall i, j | 0 <= i < j < |members| ensures ByPath(members[i]) != ByPath(members[j]) {
      MemberIsThere(root, members, members[i]);
      MemberIsThere(root, members, members[j]);
      if ByPath(members[i]) == ByPath(members[j]) {
        PosixInjective(members[i].path, members[j].path);
        assert members[i] == members[j];
        TwiceCountsTwice(members, i, j);
        assert false;
      }
    }
  }

  lemma {:induction false} MemberIsThere(root: seq<Entry>, members: seq<Seen>, m: Seen)
    requires WellFormed(root) && multiset(members) <= Below(root, []) && m in members
    ensures m.path != [] && ValidPath(m.path) && KindAt(root, m.path) == Some(m.kind) && Below(root, [])[m] == 1
  {
    hide Below, WellFormed, KindAt;
    assert m in multiset(members);
    assert m in Below(root, []);
    BelowExact(root, [], m);
    assert m.path[0..] == m.path;
    FoundPathIsValid(root, m.path);
  }

  /** The files collected from a tree, and the order they come in, depend on the tree
      alone and not on the order in which its directories list their entries. */
  lemma {:induction false} FilesAreCanonical(a: seq<Entry>, b: seq<Entry>, kind: Kind, xs: seq<Seen>, ys: seq<Seen>)
    requires WellFormed(a) && WellFormed(b) && SameTree(a, b)
    requires ExactlyThe(kind, xs, Below(a, [])) && SortedBy(xs, ByPath)
    requires ExactlyThe(kind, ys, Below(b, [])) && SortedBy(ys, ByPath)
    ensures xs == ys && KeysDistinct(xs, ByPath)
  {
    hide WellFormed, SameTree, Below, SortedBy, KeysDistinct;
    SameTreeSameBelow(a, b);
    forall m ensures multiset(xs)[m] == multiset(ys)[m] && multiset(xs)[m] <= Below(a, [])[m] {
    }
    assert multiset(xs) <= Below(a, []);
    SpellingsDistinct(a, xs);
    SortedUnique(xs, ys, ByPath);
  }

  /** The archive has every entry of the tree once, in an order that depends on the
      tree alone. */
  lemma {:induction false} MembersAreTheTree(root: seq<Entry>, directories: seq<Seen>, files: seq<Seen>)
    requires WellFormed(root) && Supported(Below(root, []))
    requires ExactlyThe(Directory, directories, Below(root, [])) && ExactlyThe(RegularFile, files, Below(root, []))
    ensures multiset(Members(directories, files)) == Below(root, [])
    ensures SortedBy(Members(directories, files), ByPath) && KeysDistinct(Members(directories, files), ByPath)
    ensures Ascending(Members(directories, files), ByPath)
  {
    hide WellFormed, Below, SortedBy, Ascending, KeysDistinct, SortBy;
    SortBySorts(directories + files, ByPath);
    SortedAscends(Members(directories, files), ByPath);
    forall m ensures multiset(directories + files)[m] == Below(root, [])[m] {
      assert multiset(directories + files)[m] == multiset(directories)[m] + multiset(files)[m];
    }
    assert multiset(directories + files) == Below(root, []);
    SpellingsDistinct(root, Members(directories, files));
  }

  lemma {:induction false} MembersAreCanonical(a: seq<Entry>, b: seq<Entry>, da: seq<Seen>, fa: seq<Seen>,
                                               db: seq<Seen>, fb: seq<Seen>)
    requires WellFormed(a) && WellFormed(b) && SameTree(a, b) && Supported(Below(a, []))
    requires ExactlyThe(Directory, da, Below(a, [])) && ExactlyThe(RegularFile, fa, Below(a, []))
    requires ExactlyThe(Directory, db, Below(b, [])) && ExactlyThe(RegularFile, fb, Below(b, []))
    ensures Members(da, fa) == Members(db, fb)
  {
    hide WellFormed, SameTree, Below, SortedBy, KeysDistinct, Members, Supported, ExactlyThe;
    SameTreeSameBelow(a, b);
    MembersAreTheTree(a, da, fa);
    MembersAreTheTree(b, db, fb);
    SortedUnique(Members(da, fa), Members(db, fb), ByPath);
  }

  /** Unpacked in order, the archive always meets a directory before anything in it. */
  lemma {:induction false} DirectoriesComeFirst(root: seq<Entry>, members: seq<Seen>, i: nat, above: Path, rest: Path)
    requires WellFormed(root) && multiset(members) == Below(root, []) && SortedBy(members, ByPath)
    requires i < |members| && members[i].path == above + rest && above != [] && rest != []
    ensures exists j :: 0 <= j < i && members[j] == Seen(above, Directory)
  {
    hide WellFormed, Below, KindAt, LexLe, Posix;
    var dir := Seen(above, Directory);
    MemberIsThere(root, members, members[i]);
    ParentIsDirectory(root, above, rest);
    BelowExact(root, [], dir);
    assert above[0..] == above;
    assert dir in multiset(members);
    var j :| 0 <= j < |members| && members[j] == dir;
    PosixOfLonger(above, rest);
    LexPrefix(Posix(above), "/" + Posix(rest));
    assert Posix(above) + ("/" + Posix(rest)) == Posix(above + rest);
    if j >= i {
      assert j != i;
      assert LexLe(ByPath(members[i]), ByPath(members[j]));
      LexAntisymmetric(Posix(above), Posix(above + rest));
    }
  }
}
