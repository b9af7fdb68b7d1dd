/** Applying a patch to a worktree with backups and a manifest, and rolling it back. */
module Worktree {
  import opened Hunks
  import opened HunkLists

  datatype Path = Path(name: string)
  datatype Ticket = Ticket(number: nat)

  type Content = seq<Line>
  type Tree = map<Path, Content>

  /** A line of the backup manifest. */
  datatype Entry = Entry(ticket: Ticket, target: Path, backup: nat, created: bool)

  /** Backups have fresh names, counted by `next`. */
  datatype Disk = Disk(tree: Tree, backups: map<nat, Content>, next: nat, manifest: seq<Entry>, trash: seq<Content>)

  datatype Patch = Patch(targets: seq<Path>, diff: seq<DiffLine>, ticket: Ticket)

  /** Where handling one file may break off, other than by the diff not applying: before
      the backup, between backup and manifest, or before the replacement. */
  datatype Fault = NoFault | BeforeBackup | BeforeManifest | BeforeReplace

  type Faults = nat -> Fault

  function ContentAt(tree: Tree, p: Path): Content {
    if p in tree then tree[p] else []
  }

  // ----- What apply does -----

  datatype Saved = Saved(target: Path, backup: nat)

  datatype Attempt = Attempt(disk: Disk, saved: seq<Saved>, ok: bool)

  function BackedUp(a: Attempt, p: Path): Attempt {
    var d := a.disk;
    if p !in d.tree then a
    else Attempt(d.(backups := d.backups[d.next := d.tree[p]], next := d.next + 1), a.saved + [Saved(p, d.next)], a.ok)
  }

  function Logged(a: Attempt, e: Entry): Attempt {
    a.(disk := a.disk.(manifest := a.disk.manifest + [e]))
  }

  function Written(a: Attempt, p: Path, content: Content): Attempt {
    a.(disk := a.disk.(tree := a.disk.tree[p := content]))
  }

  /** One more target file. */
  ghost function NextFile(a: Attempt, patch: Patch, p: Path, fault: Fault): Attempt {
    var edited := ApplyAll(ContentAt(a.disk.tree, p), Split(patch.diff));
    if edited.None? || fault.BeforeBackup? then a.(ok := false)
    else
      var backed := BackedUp(a, p);
      var logged := Logged(backed, Entry(patch.ticket, p, a.disk.next, p !in a.disk.tree));
      if fault.BeforeManifest? then backed.(ok := false)
      else if fault.BeforeReplace? then logged.(ok := false)
      else Written(logged, p, edited.value)
  }

  ghost function Attempted(d: Disk, patch: Patch, faults: Faults, n: nat): Attempt
    requires n <= |patch.targets|
  {
    if n == 0 then Attempt(d, [], true)
    else
      var a := Attempted(d, patch, faults, n - 1);
      if a.ok then NextFile(a, patch, patch.targets[n - 1], faults(n - 1)) else a
  }

  ghost function PutBack(d: Disk, saved: seq<Saved>): Disk {
    if saved == [] then d
    else
      var m, s := PutBack(d, saved[..|saved| - 1]), saved[|saved| - 1];
      m.(tree := m.tree[s.target := if s.backup in d.backups then d.backups[s.backup] else []])
  }

  /** The disk after a call of apply, successful or not. */
  ghost function Applied(d: Disk, patch: Patch, faults: Faults): Disk {
    var a := Attempted(d, patch, faults, |patch.targets|);
    if a.ok then a.disk else PutBack(a.disk, a.saved)
  }

  ghost predicate Succeeds(d: Disk, patch: Patch, faults: Faults) {
    Attempted(d, patch, faults, |patch.targets|).ok
  }

  // ----- What rollback does -----

  function EntriesOf(manifest: seq<Entry>, ticket: Ticket): seq<Entry> {
    if manifest == [] then []
    else
      var last := manifest[|manifest| - 1];
      EntriesOf(manifest[..|manifest| - 1], ticket) + if last.ticket == ticket then [last] else []
  }

  /** A created file goes to the trash; any other is copied back if its backup exists. */
  function UndoEntry(d: Disk, e: Entry): Disk {
    if e.created then
      if e.target in d.tree then d.(tree := d.tree - {e.target}, trash := d.trash + [d.tree[e.target]]) else d
    else if e.backup in d.backups then d.(tree := d.tree[e.target := d.backups[e.backup]])
    else d
  }

  function Undone(d: Disk, entries: seq<Entry>): Disk {
    if entries == [] then d else UndoEntry(Undone(d, entries[..|entries| - 1]), entries[|entries| - 1])
  }

  /** The disk after rolling back everything recorded under a ticket. */
  function RolledBack(d: Disk, ticket: Ticket): Disk {
    Undone(d, EntriesOf(d.manifest, ticket))
  }

  predicate Missing(d: Disk, e: Entry) { !e.created && e.backup !in d.backups }

  /** The targets of the entries whose backup is missing, or of the others. */
  function TargetsOf(d: Disk, entries: seq<Entry>, missing: bool): seq<Path> {
    if entries == [] then []
    else
      var last := entries[|entries| - 1];
      TargetsOf(d, entries[..|entries| - 1], missing) + if Missing(d, last) == missing then [last.target] else []
  }

  datatype RollbackResult = Refused | NoManifest | NothingFound | Incomplete(missing: seq<Path>)
    | Done(restored: seq<Path>)

  function Answer(d: Disk, approved: bool, ticket: Ticket): RollbackResult {
    var entries := EntriesOf(d.manifest, ticket);
    if !approved then Refused
    else if d.manifest == [] then NoManifest
    else if TargetsOf(d, entries, true) != [] then Incomplete(TargetsOf(d, entries, true))
    else if entries == [] then NothingFound
    else Done(TargetsOf(d, entries, false))
  }

  // ----- The two methods -----

  class Store {
    var tree: Tree
    var backups: map<nat, Content>
    var next: nat
    var manifest: seq<Entry>
    var trash: seq<Content>

    ghost function State(): Disk reads this {
      Disk(tree, backups, next, manifest, trash)
    }

    /** `PatchApplier.apply`. */
    method Apply(patch: Patch, faults: Faults) returns (ok: bool)
      modifies this
      ensures State() == Applied(old(State()), patch, faults)
      ensures ok == Succeeds(old(State()), patch, faults)
    {
      hide NextFile, PutBack, ApplyAll, Split;
      var saved: seq<Saved> := [];
      ok := true;
      var i := 0;
      while i < |patch.targets| && ok
        invariant 0 <= i <= |patch.targets|
        invariant Attempt(State(), saved, ok) == Attempted(old(State()), patch, faults, i)
      {
        ok, saved := ApplyFile(patch, patch.targets[i], faults(i), saved);
        i := i + 1;
      }
      if !ok {
        FailureLasts(old(State()), patch, faults, i);
        RestoreAll(saved);
      }
    }

    method ApplyFile(patch: Patch, target: Path, fault: Fault, saved0: seq<Saved>) returns (ok: bool, saved: seq<Saved>)
      modifies this
      ensures Attempt(State(), saved, ok) == NextFile(Attempt(old(State()), saved0, true), patch, target, fault)
    {
      hide ApplyAll, Split;
      saved := saved0;
      var edited := ApplyDiff(ContentAt(tree, target), patch.diff);
      if edited.None? || fault.BeforeBackup? { return false, saved; }
      var entry := Entry(patch.ticket, target, next, target !in tree);
      if target in tree {
        backups, next, saved := backups[next := tree[target]], next + 1, saved + [Saved(target, next)];
      }
      if fault.BeforeManifest? { return false, saved; }
      manifest := manifest + [entry];
      if fault.BeforeReplace? { return false, saved; }
      tree := tree[target := edited.value];
      ok := true;
    }

    method RestoreAll(saved: seq<Saved>)
      modifies `tree
      ensures State() == PutBack(old(State()), saved)
    {
      for i := 0 to |saved|
        invariant State() == PutBack(old(State()), saved[..i])
        invariant backups == old(backups)
      {
        assert saved[..i + 1][..i] == saved[..i];
        tree := tree[saved[i].target := if saved[i].backup in backups then backups[saved[i].backup] else []];
      }
      assert saved[..|saved|] == saved;
    }

    /** `rollback_patch`; `approved` says whether the rollback approval was verified. */
    method RollbackPatch(approved: bool, ticket: Ticket) returns (r: RollbackResult)
      modifies this
      ensures r == Answer(old(State()), approved, ticket)
      ensures State() == if approved then RolledBack(old(State()), ticket) else old(State())
    {
      if !approved { return Refused; }
      if manifest == [] { return NoManifest; }
      var restored: seq<Path>, missing: seq<Path> := [], [];
      for i := 0 to |manifest|
        invariant manifest == old(manifest) && backups == old(backups)
        invariant Swept(old(State()), EntriesOf(manifest[..i], ticket), State(), restored, missing)
      {
        EntriesStep(manifest, i, ticket);
        var entry := manifest[i];
        if entry.ticket == ticket {
          SweptNext(old(State()), EntriesOf(manifest[..i], ticket), State(), restored, missing, entry);
          var gone := UndoOne(entry);
          if gone { missing := missing + [entry.target]; } else { restored := restored + [entry.target]; }
        }
      }
      assert manifest[..|manifest|] == manifest;
      SweptAll(old(State()), EntriesOf(manifest, ticket), State(), restored, missing);
      r := if missing != [] then Incomplete(missing) else if restored == [] then NothingFound else Done(restored);
    }

    /** One manifest line; the answer says whether its backup is missing. */
    method UndoOne(entry: Entry) returns (gone: bool)
      modifies `tree, `trash
      ensures State() == UndoEntry(old(State()), entry)
      ensures gone == Missing(old(State()), entry)
    {
      if entry.created {
        if entry.target in tree {
          tree, trash := tree - {entry.target}, trash + [tree[entry.target]];
        }
        return false;
      }
      gone := entry.backup !in backups;
      if !gone {
        tree := tree[entry.target := backups[entry.backup]];
      }
    }
  }

  lemma EntriesStep(manifest: seq<Entry>, i: nat, ticket: Ticket)
    requires i < |manifest|
    ensures EntriesOf(manifest[..i + 1], ticket)
            == if manifest[i].ticket == ticket then EntriesOf(manifest[..i], ticket) + [manifest[i]]
               else EntriesOf(manifest[..i], ticket)
  {
    assert manifest[..i + 1][..i] == manifest[..i];
  }

  /** The state of the rollback loop after some entries of the ticket. */
  ghost predicate Swept(before: Disk, entries: seq<Entry>, now: Disk, restored: seq<Path>, missing: seq<Path>) {
    && now == Undone(before, entries) && now.backups == before.backups
    && restored == TargetsOf(before, entries, false) && missing == TargetsOf(before, entries, true)
  }

  lemma SweptNext(before: Disk, entries: seq<Entry>, now: Disk, restored: seq<Path>, missing: seq<Path>, e: Entry)
    requires Swept(before, entries, now, restored, missing)
    ensures var gone := Missing(now, e);
            Swept(before, entries + [e], UndoEntry(now, e), if gone then restored else restored + [e.target],
                  if gone then missing + [e.target] else missing)
  {
    assert (entries + [e])[..|entries|] == entries;
    assert restored + [] == restored && missing + [] == missing;
  }

  lemma {:induction false} SweptAll(before: Disk, entries: seq<Entry>, now: Disk, restored: seq<Path>,
                                    missing: seq<Path>)
    requires Swept(before, entries, now, restored, missing)
    ensures restored == [] && missing == [] <==> entries == []
  {
  }

  lemma {:induction false} FailureLasts(d: Disk, patch: Patch, faults: Faults, i: nat)
    requires i <= |patch.targets| && !Attempted(d, patch, faults, i).ok
    ensures Attempted(d, patch, faults, |patch.targets|) == Attempted(d, patch, faults, i)
    decreases |patch.targets| - i
  {
    if i < |patch.targets| {
      FailureLasts(d, patch, faults, i + 1);
    }
  }

  // ----- What the answers of a rollback mean -----

  lemma {:induction false} EntriesAreThose(manifest: seq<Entry>, ticket: Ticket, e: Entry)
    ensures e in EntriesOf(manifest, ticket) <==> e in manifest && e.ticket == ticket
  {
    if manifest != [] {
      EntriesAreThose(manifest[..|manifest| - 1], ticket, e);
      assert manifest == manifest[..|manifest| - 1] + [manifest[|manifest| - 1]];
    }
  }

  /** The entry can be undone: a created file needs no backup. */
  ghost predicate Backed(d: Disk, e: Entry) { e.created || e.backup in d.backups }

  /** The backup of a file that was there before is gone. */
  ghost predicate GoneAt(d: Disk, entries: seq<Entry>, p: Path) {
    exists e :: e in entries && e.target == p && !Backed(d, e)
  }

  lemma MissingIsUnbacked(d: Disk)
    ensures forall e :: Missing(d, e) <==> !Backed(d, e)
  {
  }

  lemma {:induction false} MissingAreThose(d: Disk, entries: seq<Entry>, p: Path)
    ensures p in TargetsOf(d, entries, true) <==> GoneAt(d, entries, p)
  {
    if entries != [] {
      var n := |entries| - 1;
      MissingAreThose(d, entries[..n], p);
      assert entries == entries[..n] + [entries[n]];
    }
  }

  lemma {:induction false} NoneMissing(d: Disk, entries: seq<Entry>)
    ensures TargetsOf(d, entries, true) == [] <==> forall e :: e in entries ==> !Missing(d, e)
    ensures TargetsOf(d, entries, true) == [] ==>
              && |TargetsOf(d, entries, false)| == |entries|
              && forall i :: 0 <= i < |entries| ==> TargetsOf(d, entries, false)[i] == entries[i].target
  {
    if entries != [] {
      hide Missing;
      var front, last := entries[..|entries| - 1], entries[|entries| - 1];
      NoneMissing(d, front);
      assert entries == front + [last];
      assert TargetsOf(d, entries, true) == TargetsOf(d, front, true) + if Missing(d, last) then [last.target] else [];
      if TargetsOf(d, entries, true) == [] { assert TargetsOf(d, front, true) == [] && !Missing(d, last); }
    }
  }

  /** A rollback reports success exactly if the ticket has entries and no backup is gone,
      and then names the target of every entry in order; with a backup gone it names
      exactly the targets concerned; without approval it does nothing. */
  lemma RollbackAnswers(d: Disk, approved: bool, ticket: Ticket)
    ensures var answer := Answer(d, approved, ticket); var entries := EntriesOf(d.manifest, ticket);
            && (answer == Refused <==> !approved)
            && (answer == NoManifest <==> approved && d.manifest == [])
            && (answer == NothingFound <==>
                  approved && d.manifest != [] && forall e :: e in d.manifest ==> e.ticket != ticket)
            && (forall e :: e in entries <==> e in d.manifest && e.ticket == ticket)
            && (answer.Incomplete? <==> approved && exists e :: e in entries && !Backed(d, e))
            && (answer.Incomplete? ==>
                  forall p :: p in answer.missing <==> GoneAt(d, entries, p))
            && (answer.Done? ==>
                  && entries != [] && (forall e :: e in entries ==> Backed(d, e))
                  && |answer.restored| == |entries|
                  && forall i :: 0 <= i < |entries| ==> answer.restored[i] == entries[i].target)
  {
    var entries := EntriesOf(d.manifest, ticket);
    hide Missing, TargetsOf, EntriesOf, GoneAt, Backed;
    MissingIsUnbacked(d);
    NoneMissing(d, entries);
    forall p
      ensures p in TargetsOf(d, entries, true) <==> GoneAt(d, entries, p)
    {
      MissingAreThose(d, entries, p);
    }
    forall e
      ensures e in entries <==> e in d.manifest && e.ticket == ticket
    {
      EntriesAreThose(d.manifest, ticket, e);
    }
    assert entries != [] ==> entries[0] in entries;
    assert d.manifest != [] ==> d.manifest[0] in d.manifest;
  }

  ghost predicate NamedOnce(entries: seq<Entry>, p: Path) {
    forall i, j :: 0 <= i < j < |entries| && entries[i].target == p ==> entries[j].target != p
  }

  ghost predicate Untargeted(entries: seq<Entry>, p: Path) {
    forall e :: e in entries ==> e.target != p
  }

  lemma NamedOnceBefore(front: seq<Entry>, last: Entry, p: Path)
    requires NamedOnce(front + [last], p)
    ensures NamedOnce(front, p) && (last.target == p ==> Untargeted(front, p))
  {
    var all := front + [last];
    forall e | e in front && last.target == p
      ensures e.target != p
    {
      var i :| 0 <= i < |front| && front[i] == e;
      assert all[i] == e && all[|front|] == last;
    }
    assert forall i :: 0 <= i < |front| ==> all[i] == front[i];
  }

  /** A file that a rollback removes is in the trash, and one that no entry names stays. */
  lemma {:induction false} RemovedIsInTrash(d: Disk, entries: seq<Entry>, p: Path)
    requires NamedOnce(entries, p) && p in d.tree
    ensures p !in Undone(d, entries).tree ==> d.tree[p] in Undone(d, entries).trash
    ensures Untargeted(entries, p) ==> p in Undone(d, entries).tree && Undone(d, entries).tree[p] == d.tree[p]
  {
    if entries != [] {
      hide NamedOnce, Untargeted;
      var front, last := entries[..|entries| - 1], entries[|entries| - 1];
      assert entries == front + [last];
      NamedOnceBefore(front, last, p);
      RemovedIsInTrash(d, front, p);
      UntargetedBefore(front, last, p);
    }
  }

  lemma UntargetedBefore(front: seq<Entry>, last: Entry, p: Path)
    ensures Untargeted(front + [last], p) <==> Untargeted(front, p) && last.target != p
  {
    assert forall e :: e in front ==> e in front + [last];
    assert last in front + [last];
  }
}
