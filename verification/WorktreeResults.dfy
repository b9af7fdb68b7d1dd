/** What holds of apply and rollback together: a failed apply keeps every file it found,
    and rolling back restores earlier worktrees. */
module WorktreeResults {
  import opened Plans
  import opened Hunks
  import opened HunkLists
  import opened Worktree

  // ----- Comparing trees path by path -----

  ghost predicate Same(a: Tree, b: Tree, p: Path) {
    (p in a <==> p in b) && (p in a ==> a[p] == b[p])
  }

  ghost predicate SameOutside(a: Tree, b: Tree, targets: seq<Path>) {
    forall p :: p !in targets ==> Same(a, b, p)
  }

  ghost predicate SameOn(a: Tree, b: Tree, targets: seq<Path>) {
    forall p :: p in targets ==> Same(a, b, p)
  }

  lemma SameTree(a: Tree, b: Tree)
    requires forall p :: Same(a, b, p)
    ensures a == b
  {
    assert forall p :: Same(a, b, p) ==> (p in a.Keys <==> p in b.Keys);
    assert a.Keys == b.Keys;
    forall p | p in a
      ensures a[p] == b[p]
    {
      assert Same(a, b, p);
    }
  }

  predicate Distinct(targets: seq<Path>) {
    forall i, j :: 0 <= i < j < |targets| ==> targets[i] != targets[j]
  }

  // ----- What the manifest records -----

  ghost predicate RecordedEntry(backups: map<nat, Content>, e: Entry, p: Path, before: Tree) {
    && e.target == p && (e.created <==> p !in before)
    && (!e.created ==> e.backup in backups && p in before && backups[e.backup] == before[p])
  }

  ghost predicate RecordedEntries(backups: map<nat, Content>, entries: seq<Entry>, targets: seq<Path>, before: Tree) {
    |entries| == |targets| && forall i :: 0 <= i < |entries| ==> RecordedEntry(backups, entries[i], targets[i], before)
  }

  /** Under the ticket the manifest lists exactly these targets as they were before. */
  ghost predicate Recorded(d: Disk, ticket: Ticket, targets: seq<Path>, before: Tree) {
    RecordedEntries(d.backups, EntriesOf(d.manifest, ticket), targets, before)
  }

  // ----- Rollback restores what is recorded -----

  lemma {:induction false} UndoRestores(d: Disk, entries: seq<Entry>, targets: seq<Path>, before: Tree)
    requires Distinct(targets) && RecordedEntries(d.backups, entries, targets, before)
    ensures var u := Undone(d, entries);
            && u.backups == d.backups && u.manifest == d.manifest && u.next == d.next
            && SameOn(u.tree, before, targets) && SameOutside(u.tree, d.tree, targets)
  {
    if entries != [] {
      var n := |entries| - 1;
      UndoRestores(d, entries[..n], targets[..n], before);
      var u, e, p := Undone(d, entries[..n]), entries[n], targets[n];
      assert RecordedEntry(d.backups, e, p, before);
      assert targets == targets[..n] + [p];
      forall q
        ensures q in targets[..n] ==> q != p
      {
      }
      UndoneOne(u, e, p, before);
      forall q
        ensures q in targets ==> Same(UndoEntry(u, e).tree, before, q)
        ensures q !in targets ==> Same(UndoEntry(u, e).tree, d.tree, q)
      {
        if q != p { assert Same(UndoEntry(u, e).tree, u.tree, q); }
      }
    }
  }

  lemma UndoneOne(u: Disk, e: Entry, p: Path, before: Tree)
    requires RecordedEntry(u.backups, e, p, before)
    ensures Same(UndoEntry(u, e).tree, before, p)
    ensures forall q :: q != p ==> Same(UndoEntry(u, e).tree, u.tree, q)
  {
  }

  /** Rolling back a ticket restores the tree from before its patch, if nothing else changed since. */
  lemma RollbackRestores(d: Disk, ticket: Ticket, targets: seq<Path>, before: Tree)
    requires Distinct(targets) && Recorded(d, ticket, targets, before) && SameOutside(d.tree, before, targets)
    ensures RolledBack(d, ticket).tree == before
  {
    UndoRestores(d, EntriesOf(d.manifest, ticket), targets, before);
    var after := RolledBack(d, ticket).tree;
    forall p
      ensures Same(after, before, p)
    {
      if p !in targets { assert Same(after, d.tree, p) && Same(d.tree, before, p); }
    }
    SameTree(after, before);
  }

  // ----- The invariant of an apply -----

  /** Backup names in use are below the counter. */
  ghost predicate Fresh(d: Disk) {
    forall b :: b in d.backups ==> b < d.next
  }

  /** Backups stay, and so does what is recorded under other tickets. */
  ghost predicate Extends(earlier: Disk, d: Disk, ticket: Ticket) {
    && (forall b :: b in earlier.backups ==> b in d.backups && d.backups[b] == earlier.backups[b])
    && (forall t: Ticket {:trigger EntriesOf(d.manifest, t)} :: t != ticket ==>
          EntriesOf(d.manifest, t) == EntriesOf(earlier.manifest, t))
  }

  ghost predicate SavedRight(before: Tree, backups: map<nat, Content>, saved: seq<Saved>) {
    forall s :: s in saved ==> s.target in before && s.backup in backups && backups[s.backup] == before[s.target]
  }

  ghost predicate IsSaved(saved: seq<Saved>, p: Path) {
    exists s :: s in saved && s.target == p
  }

  /** The state inside the loop of apply once `m` targets are in the manifest. */
  ghost predicate Midway(d0: Disk, a: Attempt, patch: Patch, m: nat) {
    && m <= |patch.targets| && Fresh(a.disk) && Extends(d0, a.disk, patch.ticket)
    && Recorded(a.disk, patch.ticket, patch.targets[..m], d0.tree)
    && SameOutside(a.disk.tree, d0.tree, patch.targets[..m])
    && SavedRight(d0.tree, a.disk.backups, a.saved)
    && (forall i :: 0 <= i < m && patch.targets[i] in d0.tree ==> IsSaved(a.saved, patch.targets[i]))
  }

  /** The first `m` targets hold what the diff makes of them. */
  ghost predicate Edited(before: Tree, now: Tree, patch: Patch, m: nat) {
    m <= |patch.targets|
    && forall i :: 0 <= i < m ==> EditedAt(before, now, patch, patch.targets[i])
  }

  ghost predicate EditedAt(before: Tree, now: Tree, patch: Patch, p: Path) {
    p in now && ApplyAll(ContentAt(before, p), Split(patch.diff)) == Some(now[p])
  }

  lemma StepBackup(d0: Disk, a: Attempt, patch: Patch, m: nat)
    requires Midway(d0, a, patch, m) && m < |patch.targets| && Distinct(patch.targets)
    ensures Midway(d0, BackedUp(a, patch.targets[m]), patch, m)
    ensures patch.targets[m] in d0.tree ==> IsSaved(BackedUp(a, patch.targets[m]).saved, patch.targets[m])
    ensures var e := Entry(patch.ticket, patch.targets[m], a.disk.next, patch.targets[m] !in a.disk.tree);
            RecordedEntry(BackedUp(a, patch.targets[m]).disk.backups, e, patch.targets[m], d0.tree)
  {
    var p, b := patch.targets[m], BackedUp(a, patch.targets[m]);
    NotYet(patch.targets, m);
    assert Same(a.disk.tree, d0.tree, p);
    if p in a.disk.tree {
      assert b.saved == a.saved + [Saved(p, a.disk.next)] && b.saved[|a.saved|] == Saved(p, a.disk.next);
      forall i | 0 <= i < m && patch.targets[i] in d0.tree
        ensures IsSaved(b.saved, patch.targets[i])
      {
        var s :| s in a.saved && s.target == patch.targets[i];
        assert s in b.saved;
      }
      RecordedLonger(a.disk.backups, b.disk.backups, EntriesOf(a.disk.manifest, patch.ticket), patch.targets[..m],
                     d0.tree);
    }
  }

  lemma NotYet(targets: seq<Path>, m: nat)
    requires Distinct(targets) && m < |targets|
    ensures targets[m] !in targets[..m]
  {
  }

  lemma RecordedLonger(backups: map<nat, Content>, more: map<nat, Content>, entries: seq<Entry>, targets: seq<Path>,
                       before: Tree)
    requires RecordedEntries(backups, entries, targets, before)
    requires forall b :: b in backups ==> b in more && more[b] == backups[b]
    ensures RecordedEntries(more, entries, targets, before)
  {
    forall i | 0 <= i < |entries|
      ensures RecordedEntry(more, entries[i], targets[i], before)
    {
      assert RecordedEntry(backups, entries[i], targets[i], before);
    }
  }

  lemma EntriesAppend(manifest: seq<Entry>, e: Entry, t: Ticket)
    ensures EntriesOf(manifest + [e], t)
            == if e.ticket == t then EntriesOf(manifest, t) + [e] else EntriesOf(manifest, t)
  {
    assert (manifest + [e])[..|manifest|] == manifest;
  }

  lemma StepManifest(d0: Disk, a: Attempt, patch: Patch, m: nat, e: Entry)
    requires Midway(d0, a, patch, m) && m < |patch.targets| && e.ticket == patch.ticket
    requires RecordedEntry(a.disk.backups, e, patch.targets[m], d0.tree)
    requires patch.targets[m] in d0.tree ==> IsSaved(a.saved, patch.targets[m])
    ensures Midway(d0, Logged(a, e), patch, m + 1)
  {
    var d, more := a.disk, Logged(a, e).disk;
    assert patch.targets[..m + 1] == patch.targets[..m] + [patch.targets[m]];
    forall t: Ticket
      ensures t != patch.ticket ==> EntriesOf(more.manifest, t) == EntriesOf(d0.manifest, t)
    {
      EntriesAppend(d.manifest, e, t);
    }
    EntriesAppend(d.manifest, e, patch.ticket);
    assert SameOutside(more.tree, d0.tree, patch.targets[..m + 1]);
  }

  lemma StepWrite(d0: Disk, a: Attempt, patch: Patch, m: nat, content: Content)
    requires Midway(d0, a, patch, m + 1) && m < |patch.targets|
    ensures Midway(d0, Written(a, patch.targets[m], content), patch, m + 1)
  {
    var p, tree := patch.targets[m], Written(a, patch.targets[m], content).disk.tree;
    assert patch.targets[..m + 1][m] == p;
    forall q | q !in patch.targets[..m + 1]
      ensures Same(tree, d0.tree, q)
    {
      assert q != p && Same(a.disk.tree, d0.tree, q);
    }
  }

  lemma StepFile(d0: Disk, a: Attempt, patch: Patch, m: nat, fault: Fault)
    requires Midway(d0, a, patch, m) && m < |patch.targets| && Distinct(patch.targets) && a.ok
    ensures var next := NextFile(a, patch, patch.targets[m], fault);
            && (next.ok ==> Midway(d0, next, patch, m + 1))
            && (!next.ok ==> Midway(d0, next, patch, m) || Midway(d0, next, patch, m + 1))
  {
    hide Midway;
    var p := patch.targets[m];
    var edited := ApplyAll(ContentAt(a.disk.tree, p), Split(patch.diff));
    var backed, e := BackedUp(a, p), Entry(patch.ticket, p, a.disk.next, p !in a.disk.tree);
    MidwayStop(d0, a, patch, m);
    StepBackup(d0, a, patch, m);
    MidwayStop(d0, backed, patch, m);
    StepManifest(d0, backed, patch, m, e);
    MidwayStop(d0, Logged(backed, e), patch, m + 1);
    if edited.Some? {
      StepWrite(d0, Logged(backed, e), patch, m, edited.value);
    }
  }

  lemma MidwayStop(d0: Disk, a: Attempt, patch: Patch, m: nat)
    requires Midway(d0, a, patch, m)
    ensures Midway(d0, a.(ok := false), patch, m)
  {
  }

  lemma StepEdited(d0: Disk, a: Attempt, patch: Patch, m: nat, fault: Fault)
    requires Midway(d0, a, patch, m) && m < |patch.targets| && Distinct(patch.targets) && a.ok
    requires Edited(d0.tree, a.disk.tree, patch, m) && NextFile(a, patch, patch.targets[m], fault).ok
    ensures Edited(d0.tree, NextFile(a, patch, patch.targets[m], fault).disk.tree, patch, m + 1)
  {
    var p, next := patch.targets[m], NextFile(a, patch, patch.targets[m], fault);
    NotYet(patch.targets, m);
    assert Same(a.disk.tree, d0.tree, p);
    forall i | 0 <= i < m + 1
      ensures EditedAt(d0.tree, next.disk.tree, patch, patch.targets[i])
    {
      if i < m {
        assert EditedAt(d0.tree, a.disk.tree, patch, patch.targets[i]) && patch.targets[i] != p;
      }
    }
  }

  lemma {:induction false} AttemptMidway(d0: Disk, patch: Patch, faults: Faults, n: nat) returns (m: nat)
    requires n <= |patch.targets| && Distinct(patch.targets) && Fresh(d0) && EntriesOf(d0.manifest, patch.ticket) == []
    ensures var a := Attempted(d0, patch, faults, n);
            && Midway(d0, a, patch, m)
            && (a.ok ==> m == n && Edited(d0.tree, a.disk.tree, patch, n))
  {
    if n == 0 {
      m := 0;
    } else {
      m := AttemptMidway(d0, patch, faults, n - 1);
      var a := Attempted(d0, patch, faults, n - 1);
      if a.ok {
        StepFile(d0, a, patch, m, faults(m));
        var next := NextFile(a, patch, patch.targets[m], faults(m));
        if next.ok {
          StepEdited(d0, a, patch, m, faults(m));
          m := m + 1;
        } else if !Midway(d0, next, patch, m) {
          m := m + 1;
        }
      }
    }
  }

  // ----- Restoring after a failure -----

  lemma {:induction false} PutBackSaved(d: Disk, saved: seq<Saved>, before: Tree)
    requires SavedRight(before, d.backups, saved)
    ensures var r := PutBack(d, saved);
            && r == d.(tree := r.tree)
            && forall p :: Same(r.tree, if IsSaved(saved, p) then before else d.tree, p)
  {
    if saved != [] {
      var front, s := saved[..|saved| - 1], saved[|saved| - 1];
      assert saved == front + [s];
      PutBackSaved(d, front, before);
      var m, r := PutBack(d, front), PutBack(d, saved);
      forall p
        ensures Same(r.tree, if IsSaved(saved, p) then before else d.tree, p)
      {
        assert Same(m.tree, if IsSaved(front, p) then before else d.tree, p);
        assert IsSaved(saved, p) <==> IsSaved(front, p) || p == s.target by {
          assert s in saved;
          if IsSaved(front, p) {
            var f :| f in front && f.target == p;
            assert f in saved;
          }
        }
      }
    }
  }

  /** A disk on which an apply left the first `m` of its targets recorded. */
  ghost predicate Undoable(d0: Disk, d: Disk, patch: Patch, m: nat) {
    && m <= |patch.targets| && Fresh(d) && Extends(d0, d, patch.ticket)
    && Recorded(d, patch.ticket, patch.targets[..m], d0.tree) && SameOutside(d.tree, d0.tree, patch.targets[..m])
  }

  lemma PutBackMidway(d0: Disk, a: Attempt, patch: Patch, m: nat)
    requires Midway(d0, a, patch, m)
    ensures var d := PutBack(a.disk, a.saved);
            && Undoable(d0, d, patch, m)
            && forall p :: p in d0.tree ==> Same(d.tree, d0.tree, p)
  {
    PutBackSaved(a.disk, a.saved, d0.tree);
    var d := PutBack(a.disk, a.saved);
    forall p
      ensures p in d0.tree ==> Same(d.tree, d0.tree, p)
      ensures p !in patch.targets[..m] ==> Same(d.tree, d0.tree, p)
    {
      if !IsSaved(a.saved, p) {
        assert Same(d.tree, a.disk.tree, p);
        if p in patch.targets[..m] {
          var i :| 0 <= i < m && patch.targets[..m][i] == p;
          assert patch.targets[i] == p;
        }
      }
    }
  }

  // ----- Main results about one apply -----

  /** A failed apply leaves every file it found as it was; what it leaves besides are files
      it created itself, all of them in the manifest, and rolling back removes them. */
  lemma FailedApplyLeavesOnlyCreated(d: Disk, patch: Patch, faults: Faults)
    requires Fresh(d) && Distinct(patch.targets) && EntriesOf(d.manifest, patch.ticket) == []
    requires !Succeeds(d, patch, faults)
    ensures var after := Applied(d, patch, faults);
            && (forall p :: p in d.tree ==> Same(after.tree, d.tree, p))
            && (forall p :: p in after.tree && p !in d.tree ==>
                  exists e :: e in EntriesOf(after.manifest, patch.ticket) && e.target == p && e.created)
            && RolledBack(after, patch.ticket).tree == d.tree
  {
    var a := Attempted(d, patch, faults, |patch.targets|);
    var m := AttemptMidway(d, patch, faults, |patch.targets|);
    PutBackMidway(d, a, patch, m);
    var after, targets := Applied(d, patch, faults), patch.targets[..m];
    assert Distinct(targets);
    RollbackRestores(after, patch.ticket, targets, d.tree);
    var entries := EntriesOf(after.manifest, patch.ticket);
    forall p | p in after.tree && p !in d.tree
      ensures exists e :: e in entries && e.target == p && e.created
    {
      assert !Same(after.tree, d.tree, p);
      var i :| 0 <= i < m && targets[i] == p;
      assert RecordedEntry(after.backups, entries[i], targets[i], d.tree);
      assert entries[i] in entries;
    }
  }

  /** A successful apply writes to every target what the diff makes of it, touches nothing
      else, keeps what is recorded under other tickets, and can be taken back. */
  lemma ApplyThenRollback(d: Disk, patch: Patch, faults: Faults)
    requires Fresh(d) && Distinct(patch.targets) && EntriesOf(d.manifest, patch.ticket) == []
    requires Succeeds(d, patch, faults)
    ensures var after := Applied(d, patch, faults);
            && Edited(d.tree, after.tree, patch, |patch.targets|) && SameOutside(after.tree, d.tree, patch.targets)
            && Recorded(after, patch.ticket, patch.targets, d.tree) && Extends(d, after, patch.ticket) && Fresh(after)
            && RolledBack(after, patch.ticket).tree == d.tree
  {
    var m := AttemptMidway(d, patch, faults, |patch.targets|);
    assert patch.targets[..m] == patch.targets;
    RollbackRestores(Applied(d, patch, faults), patch.ticket, patch.targets, d.tree);
  }
}
