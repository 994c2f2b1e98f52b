/** The list of desktop sessions: the first directory with a file name wins, then a sort by three keys. */
module SessionModel {
  datatype Type = X11 | Wayland
  datatype Session = Session(kind: Type, path: string, displayName: string, comment: string)

  /** A directory and its .desktop files, as entryList gives them. */
  datatype Dir = Dir(path: string, entries: seq<string>)

  /** QFileInfo::fileName: what follows the last slash. */
  function FileName(path: string): (name: string)
    ensures '/' !in name
  {
    if '/' !in path then path else FileName(path[1..])
  }

  /** QDir::absoluteFilePath. */
  function FilePath(dir: string, name: string): string { dir + "/" + name }

  lemma {:induction false} FileNameOfPath(dir: string, name: string)
    requires '/' !in name
    ensures FileName(dir + "/" + name) == name
  {
    var p := FilePath(dir, name);
    assert p[|dir|] == '/';
    if dir == [] {
      assert p[1..] == name;
    } else {
      assert p[1..] == FilePath(dir[1..], name);
      FileNameOfPath(dir[1..], name);
    }
  }

  ghost predicate Clean(dirs: seq<Dir>) {
    forall i, j | 0 <= i < |dirs| && 0 <= j < |dirs[i].entries| :: '/' !in dirs[i].entries[j]
  }

  ghost predicate DistinctNames(paths: seq<string>) {
    forall a, b | 0 <= a < b < |paths| :: FileName(paths[a]) != FileName(paths[b])
  }

  /** Path p comes from directory i, and no earlier directory has a file of that name. */
  ghost predicate FromFirst(dirs: seq<Dir>, p: string, i: nat) {
    && i < |dirs| && FileName(p) in dirs[i].entries && p == dirs[i].path + "/" + FileName(p)
    && forall j | 0 <= j < i :: FileName(p) !in dirs[j].entries
  }

  ghost predicate Named(paths: seq<string>, name: string) {
    exists a | 0 <= a < |paths| :: FileName(paths[a]) == name
  }

  /** The first n entries of a directory are represented. */
  ghost predicate Covers(paths: seq<string>, d: Dir, n: nat) {
    n <= |d.entries| && forall j | 0 <= j < n :: Named(paths, d.entries[j])
  }

  ghost predicate CoversAll(paths: seq<string>, dirs: seq<Dir>, i: nat) {
    i <= |dirs| && forall k | 0 <= k < i :: Covers(paths, dirs[k], |dirs[k].entries|)
  }

  /** Every path comes from one of the first n directories. */
  ghost predicate Sourced(dirs: seq<Dir>, paths: seq<string>, n: nat) {
    forall a | 0 <= a < |paths| :: Found(dirs, paths[a], n)
  }

  ghost predicate Found(dirs: seq<Dir>, p: string, n: nat) {
    exists i: nat | i < n :: FromFirst(dirs, p, i)
  }

  /** One path per file name that occurs anywhere, from the first directory that has it. */
  ghost predicate FirstOfEach(dirs: seq<Dir>, paths: seq<string>) {
    DistinctNames(paths) && Sourced(dirs, paths, |dirs|) && CoversAll(paths, dirs, |dirs|)
  }

  /** What is known after j entries of directory i. */
  ghost predicate Gathered(dirs: seq<Dir>, paths: seq<string>, i: nat, j: nat) {
    && i < |dirs| && DistinctNames(paths) && Sourced(dirs, paths, i + 1)
    && CoversAll(paths, dirs, i) && Covers(paths, dirs[i], j)
  }

  method GetSessionsPaths(dirs: seq<Dir>) returns (paths: seq<string>)
    requires Clean(dirs)
    ensures FirstOfEach(dirs, paths)
  {
    paths := [];
    for i := 0 to |dirs|
      invariant DistinctNames(paths) && Sourced(dirs, paths, i) && CoversAll(paths, dirs, i)
    {
      SourcesStay(dirs, paths, i);
      for j := 0 to |dirs[i].entries|
        invariant Gathered(dirs, paths, i, j)
      {
        var name := FileName(dirs[i].entries[j]);
        var isDuplicate := exists a | 0 <= a < |paths| :: FileName(paths[a]) == name;
        if !isDuplicate {
          AddPath(dirs, paths, i, j);
          paths := paths + [FilePath(dirs[i].path, name)];
        }
      }
    }
  }

  /** A new name goes to the end of the list. */
  lemma AddPath(dirs: seq<Dir>, paths: seq<string>, i: nat, j: nat)
    requires Clean(dirs) && Gathered(dirs, paths, i, j) && j < |dirs[i].entries|
    requires !Named(paths, FileName(dirs[i].entries[j]))
    ensures Gathered(dirs, paths + [FilePath(dirs[i].path, FileName(dirs[i].entries[j]))], i, j + 1)
  {
    var name := dirs[i].entries[j];
    var path := FilePath(dirs[i].path, name);
    var all := paths + [path];
    NewPath(dirs, i, name, paths);
    CoverageGrows(paths, path, dirs, i, j);
    assert Found(dirs, path, i + 1);
    assert FileName(all[|paths|]) == name;
    assert Named(all, name);
  }

  lemma SourcesStay(dirs: seq<Dir>, paths: seq<string>, n: nat)
    requires Sourced(dirs, paths, n)
    ensures Sourced(dirs, paths, n + 1)
  {
    forall a | 0 <= a < |paths| ensures Found(dirs, paths[a], n + 1) {
      assert Found(dirs, paths[a], n);
      var i: nat :| i < n && FromFirst(dirs, paths[a], i);
    }
  }

  /** A name not yet in the list is in no earlier directory. */
  lemma NewPath(dirs: seq<Dir>, i: nat, name: string, paths: seq<string>)
    requires i < |dirs| && name in dirs[i].entries && '/' !in name
    requires CoversAll(paths, dirs, i) && !Named(paths, name)
    ensures FileName(FilePath(dirs[i].path, name)) == name
    ensures FromFirst(dirs, FilePath(dirs[i].path, name), i)
  {
    FileNameOfPath(dirs[i].path, name);
    forall k | 0 <= k < i ensures name !in dirs[k].entries {
      assert Covers(paths, dirs[k], |dirs[k].entries|);
    }
  }

  lemma NamedGrows(paths: seq<string>, path: string, name: string)
    requires Named(paths, name)
    ensures Named(paths + [path], name)
  {
    var a :| 0 <= a < |paths| && FileName(paths[a]) == name;
    assert FileName((paths + [path])[a]) == name;
  }

  lemma CoverageGrows(paths: seq<string>, path: string, dirs: seq<Dir>, i: nat, j: nat)
    requires i < |dirs| && CoversAll(paths, dirs, i) && Covers(paths, dirs[i], j)
    ensures CoversAll(paths + [path], dirs, i) && Covers(paths + [path], dirs[i], j)
  {
    forall k, n | 0 <= k <= i && 0 <= n < (if k < i then |dirs[k].entries| else j)
      ensures Named(paths + [path], dirs[k].entries[n])
    {
      if k < i { assert Covers(paths, dirs[k], |dirs[k].entries|); }
      NamedGrows(paths, path, dirs[k].entries[n]);
    }
  }

  // ------------------------------------------------------------- the order

  type Collation = (string, string) -> int

  /** What a locale promises of localeAwareCompare. */
  ghost predicate Consistent(c: Collation) {
    && (forall a, b :: c(a, b) < 0 <==> c(b, a) > 0)
    && (forall x, y, z :: c(x, y) <= 0 && c(y, z) <= 0 ==> c(x, z) <= 0)
  }

  predicate IsPlasma(s: Session) { "plasma" <= FileName(s.path) }

  /** Only the name of the file decides, not its directory. */
  lemma PlasmaByFileName(s: Session, dir: string, name: string)
    requires '/' !in name && s.path == dir + "/" + name
    ensures IsPlasma(s) <==> |name| >= 6 && name[..6] == "plasma"
  {
    FileNameOfPath(dir, name);
  }

  /** The comparator passed to the sort. */
  predicate Before(c: Collation, a: Session, b: Session) {
    if IsPlasma(a) && !IsPlasma(b) then true
    else if !IsPlasma(a) && IsPlasma(b) then false
    else if c(a.displayName, b.displayName) < 0 then true
    else if c(a.displayName, b.displayName) > 0 then false
    else a.kind.Wayland? && !b.kind.Wayland?
  }

  /** What the sort demands of a comparator: a strict order whose ties are transitive. */
  lemma BeforeIsStrictWeak(c: Collation, x: Session, y: Session, z: Session)
    requires Consistent(c)
    ensures !Before(c, x, x)
    ensures Before(c, x, y) ==> !Before(c, y, x)
    ensures Before(c, x, y) && Before(c, y, z) ==> Before(c, x, z)
    ensures !Before(c, x, y) && !Before(c, y, z) ==> !Before(c, x, z)
  {
  }

  ghost predicate Sorted(c: Collation, l: seq<Session>) {
    forall i, j | 0 <= i < j < |l| :: !Before(c, l[j], l[i])
  }

  /** Plasma sessions come first, then the smaller name, then Wayland. */
  ghost predicate InPlace(c: Collation, a: Session, b: Session) {
    && (IsPlasma(b) ==> IsPlasma(a))
    && (IsPlasma(a) == IsPlasma(b) ==> c(a.displayName, b.displayName) <= 0)
    && (IsPlasma(a) == IsPlasma(b) && c(a.displayName, b.displayName) == 0 ==> (b.kind.Wayland? ==> a.kind.Wayland?))
  }

  /** What a sorted list looks like to its reader. */
  ghost predicate ThreeKeys(c: Collation, l: seq<Session>) {
    forall i, j | 0 <= i < j < |l| :: InPlace(c, l[i], l[j])
  }

  lemma SortedByThreeKeys(c: Collation, l: seq<Session>)
    requires Consistent(c)
    ensures Sorted(c, l) <==> ThreeKeys(c, l)
  {
    forall i, j | 0 <= i < j < |l| ensures !Before(c, l[j], l[i]) <==> InPlace(c, l[i], l[j]) {
      var a, b := l[i].displayName, l[j].displayName;
      assert c(a, b) < 0 <==> c(b, a) > 0;
      assert c(b, a) < 0 <==> c(a, b) > 0;
    }
  }

  /** Stands for std::sort: some sorted permutation. */
  method Sort(c: Collation, l: seq<Session>) returns (r: seq<Session>)
    requires Consistent(c)
    ensures Sorted(c, r) && ThreeKeys(c, r) && multiset(r) == multiset(l)
  {
    r := [];
    for i := 0 to |l|
      invariant Sorted(c, r) && multiset(r) == multiset(l[..i])
    {
      assert l[..i + 1] == l[..i] + [l[i]];
      r := SortInto(c, r, l[i]);
    }
    assert l[..|l|] == l;
    SortedByThreeKeys(c, r);
  }

  method SortInto(c: Collation, l: seq<Session>, s: Session) returns (r: seq<Session>)
    requires Consistent(c) && Sorted(c, l)
    ensures Sorted(c, r) && multiset(r) == multiset(l) + multiset{s}
  {
    var k := 0;
    while k < |l| && !Before(c, s, l[k])
      invariant k <= |l|
      invariant forall j | 0 <= j < k :: !Before(c, s, l[j])
    {
      k := k + 1;
    }
    InsertKeepsSorted(c, l, k, s);
    assert l == l[..k] + l[k..];
    r := l[..k] + [s] + l[k..];
  }

  lemma InsertKeepsSorted(c: Collation, r: seq<Session>, k: nat, s: Session)
    requires Consistent(c) && Sorted(c, r) && k <= |r|
    requires forall j | 0 <= j < k :: !Before(c, s, r[j])
    requires k < |r| ==> Before(c, s, r[k])
    ensures Sorted(c, r[..k] + [s] + r[k..])
  {
    forall j | k <= j < |r| ensures !Before(c, r[j], s) {
      BeforeIsStrictWeak(c, s, r[k], r[j]);
      BeforeIsStrictWeak(c, r[j], s, r[k]);
    }
  }

  lemma SameElements(l: seq<Session>, r: seq<Session>)
    requires multiset(l) == multiset(r)
    ensures |l| == |r| && forall s :: s in l <==> s in r
  {
    assert |multiset(l)| == |l| && |multiset(r)| == |r|;
    forall s ensures s in l <==> s in r {
      assert s in l <==> s in multiset(l);
      assert s in r <==> s in multiset(r);
    }
  }

  class SessionModel {
    const collation: Collation
    const readName: string -> string
    const readComment: string -> string
    var sessions: seq<Session>

    constructor (collation: Collation, readName: string -> string, readComment: string -> string)
      ensures this.collation == collation && this.readName == readName && this.readComment == readComment
      ensures sessions == []
    {
      this.collation, this.readName, this.readComment, sessions := collation, readName, readComment, [];
    }

    function GetSession(path: string, kind: Type): Session {
      Session(kind, path, readName(path), readComment(path))
    }

    function GetSessions(paths: seq<string>, kind: Type): (l: seq<Session>)
      ensures |l| == |paths|
    {
      seq(|paths|, i requires 0 <= i < |paths| => GetSession(paths[i], kind))
    }

    /** The loop over the paths of one type. */
    method Append(paths: seq<string>, kind: Type)
      modifies this`sessions
      ensures sessions == old(sessions) + GetSessions(paths, kind)
    {
      ghost var all := GetSessions(paths, kind);
      for i := 0 to |paths|
        invariant sessions == old(sessions) + all[..i]
      {
        assert all[..i + 1] == all[..i] + [all[i]];
        sessions := sessions + [GetSession(paths[i], kind)];
      }
      assert all[..|paths|] == all;
    }

    /** Each session has a path of the list for its type, with the name and the comment read from there; and each
        path has its session. */
    ghost predicate ReadFrom(xs: seq<string>, ws: seq<string>, l: seq<Session>) {
      && (forall s | s in l :: s.path in (if s.kind.X11? then xs else ws)
            && s.displayName == readName(s.path) && s.comment == readComment(s.path))
      && (forall p | p in xs :: Session(X11, p, readName(p), readComment(p)) in l)
      && (forall p | p in ws :: Session(Wayland, p, readName(p), readComment(p)) in l)
    }

    lemma ReadOfType(paths: seq<string>, kind: Type)
      ensures forall s | s in GetSessions(paths, kind) ::
        s.kind == kind && s.path in paths && s.displayName == readName(s.path) && s.comment == readComment(s.path)
      ensures forall p | p in paths :: Session(kind, p, readName(p), readComment(p)) in GetSessions(paths, kind)
    {
      var l := GetSessions(paths, kind);
      forall p | p in paths ensures Session(kind, p, readName(p), readComment(p)) in l {
        var i :| 0 <= i < |paths| && paths[i] == p;
        assert l[i] == GetSession(p, kind);
      }
    }

    lemma SessionsAreRead(xs: seq<string>, ws: seq<string>, l: seq<Session>)
      requires multiset(l) == multiset(GetSessions(xs, X11) + GetSessions(ws, Wayland))
      ensures |l| == |xs| + |ws| && ReadFrom(xs, ws, l)
    {
      var a, b := GetSessions(xs, X11), GetSessions(ws, Wayland);
      SameElements(l, a + b);
      ReadOfType(xs, X11);
      ReadOfType(ws, Wayland);
      forall s | s in l
        ensures s.path in (if s.kind.X11? then xs else ws)
        ensures s.displayName == readName(s.path) && s.comment == readComment(s.path)
      {
        assert s in a || s in b;
      }
    }

    /** Reads the sessions afresh: one X11 and one Wayland session for each file name found, sorted. */
    method Populate(xDirs: seq<Dir>, waylandDirs: seq<Dir>)
      returns (ghost xs: seq<string>, ghost ws: seq<string>)
      requires Clean(xDirs) && Clean(waylandDirs) && Consistent(collation)
      modifies this`sessions
      ensures FirstOfEach(xDirs, xs) && FirstOfEach(waylandDirs, ws)
      ensures multiset(sessions) == multiset(GetSessions(xs, X11) + GetSessions(ws, Wayland))
      ensures |sessions| == |xs| + |ws| && ReadFrom(xs, ws, sessions)
      ensures ThreeKeys(collation, sessions)
    {
      sessions := [];
      var x := GetSessionsPaths(xDirs);
      Append(x, X11);
      assert sessions == GetSessions(x, X11);
      var w := GetSessionsPaths(waylandDirs);
      Append(w, Wayland);
      ghost var read := GetSessions(x, X11) + GetSessions(w, Wayland);
      assert sessions == read;
      var sorted := Sort(collation, sessions);
      assert multiset(sorted) == multiset(read);
      SessionsAreRead(x, w, sorted);
      xs, ws := x, w;
      sessions := sorted;
    }
  }
}
