/** Repairing the ownership of a directory tree in which any system call may fail. */
module OwnershipRepair {
  datatype Owner = Owner(uid: nat, gid: nat)

  /** Which system calls fail on an entry: fstatat, openat2, fdopendir, fchownat. */
  datatype Faults = Faults(stat: bool, open: bool, stream: bool, chown: bool)

  datatype Kind = SymLink | Plain | Directory(entries: seq<Entry>)
  datatype Entry = Entry(name: string, kind: Kind, owner: Owner, faults: Faults)

  predicate Dot(e: Entry) { e.name == "." || e.name == ".." }

  /** One turn of the loop: whether it kept `success`, and the entry afterwards. */
  function RepairEntry(e: Entry, o: Owner): (bool, Entry)
    decreases e, 0
  {
    if Dot(e) then (true, e)
    else if e.faults.stat then (false, e)
    else if e.kind.SymLink? then (true, e)
    else if e.kind.Plain? then
      if e.faults.chown then (false, e) else (true, e.(owner := o))
    else if e.faults.open then (false, e)
    else if e.faults.stream then
      if e.faults.chown then (false, e) else (false, e.(owner := o))
    else
      var (ok, entries) := RepairAll(e.kind.entries, o);
      var below := e.(kind := Directory(entries));
      if e.faults.chown then (false, below) else (ok, below.(owner := o))
  }

  function RepairAll(entries: seq<Entry>, o: Owner): (r: (bool, seq<Entry>))
    ensures |r.1| == |entries|
    decreases entries, 1
  {
    if entries == [] then (true, [])
    else
      var (ok, done) := RepairAll(entries[..|entries| - 1], o);
      var (here, e) := RepairEntry(entries[|entries| - 1], o);
      (ok && here, done + [e])
  }

  /** A directory whose stream cannot be opened is left alone. */
  function Repair(entries: seq<Entry>, streamFails: bool, o: Owner): (r: (bool, seq<Entry>))
    ensures |r.1| == |entries|
  {
    if streamFails then (false, entries) else RepairAll(entries, o)
  }

  /** adjustOwnershipRecursively on an open directory. */
  method AdjustOwnershipRecursively(entries: seq<Entry>, streamFails: bool, o: Owner)
    returns (success: bool, after: seq<Entry>)
    ensures (success, after) == Repair(entries, streamFails, o)
    decreases entries
  {
    if streamFails {
      return false, entries;
    }
    success, after := true, [];
    for i := 0 to |entries|
      invariant success == RepairAll(entries[..i], o).0 && after == RepairAll(entries[..i], o).1
    {
      var e := entries[i];
      assert entries[..i + 1][..i] == entries[..i];
      ghost var start, repaired := success, RepairEntry(e, o);
      if !Dot(e) {
        if e.faults.stat {
          success := false;
        } else if !e.kind.SymLink? {
          if e.kind.Directory? && e.faults.open {
            success := false;
          } else {
            if e.kind.Directory? {
              var ok, below := AdjustOwnershipRecursively(e.kind.entries, e.faults.stream, o);
              success := ok && success;
              e := e.(kind := Directory(below));
            }
            if e.faults.chown {
              success := false;
            } else {
              e := e.(owner := o);
            }
          }
        }
      }
      assert success == (start && repaired.0) && e == repaired.1;
      after := after + [e];
    }
    assert entries[..|entries|] == entries;
  }

  // ---------------------------------------------------------- by position

  /** A node below a directory, by its index in each directory on the way. */
  predicate InTree(entries: seq<Entry>, path: seq<nat>)
    decreases path
  {
    && path != [] && path[0] < |entries|
    && (|path| > 1 ==> entries[path[0]].kind.Directory? && InTree(entries[path[0]].kind.entries, path[1..]))
  }

  function At(entries: seq<Entry>, path: seq<nat>): Entry
    requires InTree(entries, path)
    decreases path
  {
    if |path| == 1 then entries[path[0]] else At(entries[path[0]].kind.entries, path[1..])
  }

  /** The loop gets to the entries of this directory. */
  predicate Entered(e: Entry) {
    !Dot(e) && !e.faults.stat && e.kind.Directory? && !e.faults.open && !e.faults.stream
  }

  /** The loop gets to this node: only its own ancestors matter. */
  predicate Reached(entries: seq<Entry>, path: seq<nat>)
    requires InTree(entries, path)
    decreases path
  {
    |path| > 1 ==> Entered(entries[path[0]]) && Reached(entries[path[0]].kind.entries, path[1..])
  }

  /** The change of owner is tried on it. */
  predicate Tried(e: Entry) {
    !Dot(e) && !e.faults.stat && !e.kind.SymLink? && !(e.kind.Directory? && e.faults.open)
  }

  /** A system call made for this entry fails. */
  predicate Troubled(e: Entry) {
    && !Dot(e)
    && (|| e.faults.stat
        || (e.kind.Directory? && (e.faults.open || e.faults.stream))
        || (!e.kind.SymLink? && e.faults.chown))
  }

  lemma {:induction false} RepairAllAt(entries: seq<Entry>, o: Owner, i: nat)
    requires i < |entries|
    ensures RepairAll(entries, o).1[i] == RepairEntry(entries[i], o).1
    ensures RepairAll(entries, o).0 ==> RepairEntry(entries[i], o).0
    decreases |entries|
  {
    var n := |entries| - 1;
    if i < n {
      RepairAllAt(entries[..n], o, i);
    }
  }

  lemma {:induction false} RepairAllFails(entries: seq<Entry>, o: Owner) returns (i: nat)
    requires !RepairAll(entries, o).0
    ensures i < |entries| && !RepairEntry(entries[i], o).0
    decreases |entries|
  {
    var n := |entries| - 1;
    if RepairEntry(entries[n], o).0 {
      i := RepairAllFails(entries[..n], o);
    } else {
      i := n;
    }
  }

  /** Exactly the nodes that are reached and on which every call succeeds change hands; every other node keeps
      its owner, symbolic links among them. Failures elsewhere in the tree, before or after, make no difference. */
  lemma {:induction false} OwnersAfterRepair(entries: seq<Entry>, o: Owner, path: seq<nat>)
    requires InTree(entries, path)
    ensures var after := RepairAll(entries, o).1;
      && InTree(after, path)
      && At(after, path).owner ==
           (if Reached(entries, path) && Tried(At(entries, path)) && !At(entries, path).faults.chown then o
            else At(entries, path).owner)
      && At(after, path).name == At(entries, path).name
      && At(after, path).kind.SymLink? == At(entries, path).kind.SymLink?
    decreases path
  {
    var i := path[0];
    RepairAllAt(entries, o, i);
    if |path| > 1 {
      OwnersAfterRepair(entries[i].kind.entries, o, path[1..]);
    }
  }

  lemma DeeperPath(entries: seq<Entry>, i: nat, path: seq<nat>)
    requires i < |entries| && entries[i].kind.Directory? && InTree(entries[i].kind.entries, path)
    ensures InTree(entries, [i] + path) && At(entries, [i] + path) == At(entries[i].kind.entries, path)
    ensures Reached(entries, [i] + path) == (Entered(entries[i]) && Reached(entries[i].kind.entries, path))
  {
    assert ([i] + path)[1..] == path;
  }

  /** A reported failure has a cause: a node that was reached and on which a call failed. */
  lemma {:induction false} FailureHasCause(entries: seq<Entry>, o: Owner) returns (path: seq<nat>)
    requires !RepairAll(entries, o).0
    ensures InTree(entries, path) && Reached(entries, path) && Troubled(At(entries, path))
    decreases entries
  {
    var i := RepairAllFails(entries, o);
    var e := entries[i];
    path := [i];
    if !Troubled(e) {
      var below := FailureHasCause(e.kind.entries, o);
      DeeperPath(entries, i, below);
      path := [i] + below;
    }
  }

  /** And every such node makes the whole repair report failure. */
  lemma {:induction false} TroubleIsReported(entries: seq<Entry>, o: Owner, path: seq<nat>)
    requires InTree(entries, path) && Reached(entries, path) && Troubled(At(entries, path))
    ensures !RepairAll(entries, o).0
    decreases path
  {
    RepairAllAt(entries, o, path[0]);
    if |path| > 1 {
      TroubleIsReported(entries[path[0]].kind.entries, o, path[1..]);
    }
  }

  ghost predicate NoFailure(entries: seq<Entry>) {
    forall path: seq<nat> | InTree(entries, path) && Reached(entries, path) :: !Troubled(At(entries, path))
  }

  /** The result is true exactly when no system call that was made failed. */
  lemma SuccessMeansNoFailure(entries: seq<Entry>, streamFails: bool, o: Owner)
    ensures Repair(entries, streamFails, o).0 <==> !streamFails && NoFailure(entries)
  {
    if RepairAll(entries, o).0 {
      forall path: seq<nat> | InTree(entries, path) && Reached(entries, path) ensures !Troubled(At(entries, path)) {
        if Troubled(At(entries, path)) { TroubleIsReported(entries, o, path); }
      }
    } else {
      var path := FailureHasCause(entries, o);
      assert !NoFailure(entries);
    }
  }

  /** No name on the way is "." or "..", which stand for no descendant. */
  predicate Descendant(entries: seq<Entry>, path: seq<nat>)
    requires InTree(entries, path)
    decreases path
  {
    !Dot(entries[path[0]]) && (|path| > 1 ==> Descendant(entries[path[0]].kind.entries, path[1..]))
  }

  lemma EntrySuccess(e: Entry, o: Owner)
    requires !Dot(e) && RepairEntry(e, o).0
    ensures !Troubled(e)
    ensures e.kind.Directory? ==> Entered(e) && RepairAll(e.kind.entries, o).0
  {
  }

  /** A successful repair gets everywhere. */
  lemma {:induction false} SuccessReachesAll(entries: seq<Entry>, o: Owner, path: seq<nat>)
    requires RepairAll(entries, o).0 && InTree(entries, path) && Descendant(entries, path)
    ensures Reached(entries, path) && !Troubled(At(entries, path)) && !Dot(At(entries, path))
    decreases path
  {
    var e := entries[path[0]];
    RepairAllAt(entries, o, path[0]);
    EntrySuccess(e, o);
    if |path| > 1 {
      SuccessReachesAll(e.kind.entries, o, path[1..]);
    }
  }

  /** After a successful repair every descendant that is no symbolic link has the new owner. */
  lemma SuccessRepairsAll(entries: seq<Entry>, o: Owner, path: seq<nat>)
    requires RepairAll(entries, o).0 && InTree(entries, path) && Descendant(entries, path)
    requires !At(entries, path).kind.SymLink?
    ensures var after := RepairAll(entries, o).1; InTree(after, path) && At(after, path).owner == o
  {
    SuccessReachesAll(entries, o, path);
    OwnersAfterRepair(entries, o, path);
  }
}
