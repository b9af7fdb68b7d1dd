/** Repeated targets and reused tickets: exactly when a failed apply keeps every file, and
    what rolling back restores. */
module WorktreeRepetition {
  import opened Plans
  import opened Hunks
  import opened HunkLists
  import opened Worktree
  import opened WorktreeResults
  import opened WorktreeHistories

  // ----- The trees an apply goes through -----

  /** The tree before the target with number `i` is replaced. */
  ghost function TreeAt(d: Disk, patch: Patch, i: nat): Tree
    requires i <= |patch.targets|
  {
    Attempted(d, patch, ALL_WELL, i).disk.tree
  }

  /** As long as an apply has not failed, no fault has happened. */
  lemma {:induction false} FaultlessPrefix(d: Disk, patch: Patch, faults: Faults, n: nat)
    requires n <= |patch.targets| && Attempted(d, patch, faults, n).ok
    ensures Attempted(d, patch, faults, n) == Attempted(d, patch, ALL_WELL, n)
    ensures n > 0 ==> Attempted(d, patch, faults, n - 1).ok
  {
    if n > 0 {
      hide ApplyAll, Split, BackedUp, Logged, Written;
      FaultlessPrefix(d, patch, faults, n - 1);
    }
  }

  lemma {:induction false} EarlierOk(d: Disk, patch: Patch, faults: Faults, m: nat, n: nat)
    requires m <= n <= |patch.targets| && Attempted(d, patch, faults, n).ok
    ensures Attempted(d, patch, faults, m).ok
  {
    if m < n {
      FaultlessPrefix(d, patch, faults, n);
      EarlierOk(d, patch, faults, m, n - 1);
    }
  }

  lemma SuccessIsFaultless(d: Disk, patch: Patch, faults: Faults)
    requires Succeeds(d, patch, faults)
    ensures Succeeds(d, patch, ALL_WELL) && Applied(d, patch, faults) == Applied(d, patch, ALL_WELL)
  {
    FaultlessPrefix(d, patch, faults, |patch.targets|);
  }

  // ----- Counting the turns of a target -----

  /** How often a target is listed. */
  function Times(targets: seq<Path>, p: Path): nat {
    if targets == [] then 0
    else Times(targets[..|targets| - 1], p) + if targets[|targets| - 1] == p then 1 else 0
  }

  lemma TimesOneMore(targets: seq<Path>, n: nat, p: Path)
    requires n < |targets|
    ensures Times(targets[..n + 1], p) == Times(targets[..n], p) + if targets[n] == p then 1 else 0
  {
    assert targets[..n + 1][..n] == targets[..n];
  }

  lemma {:induction false} ListedIsCounted(targets: seq<Path>, p: Path)
    ensures p in targets <==> Times(targets, p) > 0
  {
    if targets != [] {
      var n := |targets| - 1;
      ListedIsCounted(targets[..n], p);
      assert targets == targets[..n] + [targets[n]];
    }
  }

  /** A content after the diff was applied to it `n` times in a row. */
  ghost function Iterated(content: Content, hunks: seq<Hunk>, n: nat): Option<Content> {
    if n == 0 then Some(content)
    else
      match Iterated(content, hunks, n - 1)
      case None => None
      case Some(c) => ApplyAll(c, hunks)
  }

  lemma {:induction false} IteratedStops(content: Content, hunks: seq<Hunk>, m: nat, n: nat)
    requires m <= n && Iterated(content, hunks, m).None?
    ensures Iterated(content, hunks, n).None?
  {
    if m < n {
      hide ApplyAll;
      IteratedStops(content, hunks, m, n - 1);
    }
  }

  /** The diff applies to each of the first `n` targets as often as it is listed among them. */
  ghost predicate AppliesInTurn(d: Disk, patch: Patch, n: nat)
    requires n <= |patch.targets|
  {
    forall q :: q in patch.targets[..n] ==>
      Iterated(ContentAt(d.tree, q), Split(patch.diff), Times(patch.targets[..n], q)).Some?
  }

  /** A path as the turns it has had leave it. */
  ghost predicate AsCounted(d: Disk, patch: Patch, tree: Tree, n: nat, q: Path)
    requires n <= |patch.targets|
  {
    var turns := Times(patch.targets[..n], q);
    if turns == 0 then Same(tree, d.tree, q)
    else q in tree && Iterated(ContentAt(d.tree, q), Split(patch.diff), turns) == Some(tree[q])
  }

  ghost predicate AllCounted(d: Disk, patch: Patch, tree: Tree, n: nat)
    requires n <= |patch.targets|
  {
    forall q :: AsCounted(d, patch, tree, n, q)
  }

  lemma ContentAsCounted(d: Disk, patch: Patch, tree: Tree, n: nat, q: Path)
    requires n <= |patch.targets| && AllCounted(d, patch, tree, n)
    ensures Iterated(ContentAt(d.tree, q), Split(patch.diff), Times(patch.targets[..n], q)) == Some(ContentAt(tree, q))
    ensures q in d.tree ==> q in tree
  {
    hide Split, ApplyAll, Times;
    assert AsCounted(d, patch, tree, n, q);
  }

  /** The next turn succeeds exactly if the diff applies to its target once more. */
  lemma OneMoreApplies(d: Disk, patch: Patch, n: nat, tree: Tree)
    requires n < |patch.targets| && AppliesInTurn(d, patch, n) && AllCounted(d, patch, tree, n)
    ensures AppliesInTurn(d, patch, n + 1) <==> ApplyAll(ContentAt(tree, patch.targets[n]), Split(patch.diff)).Some?
  {
    hide ApplyAll, Split, Times, AllCounted;
    var p, hunks := patch.targets[n], Split(patch.diff);
    assert patch.targets[..n + 1] == patch.targets[..n] + [p];
    ContentAsCounted(d, patch, tree, n, p);
    forall q
      ensures Times(patch.targets[..n + 1], q) == Times(patch.targets[..n], q) + if p == q then 1 else 0
    {
      TimesOneMore(patch.targets, n, q);
    }
    assert Iterated(ContentAt(d.tree, p), hunks, Times(patch.targets[..n + 1], p))
        == ApplyAll(ContentAt(tree, p), hunks);
    assert p in patch.targets[..n + 1];
  }

  lemma OneMoreCounted(d: Disk, patch: Patch, n: nat, tree: Tree, content: Content)
    requires n < |patch.targets| && AllCounted(d, patch, tree, n)
    requires ApplyAll(ContentAt(tree, patch.targets[n]), Split(patch.diff)) == Some(content)
    ensures AllCounted(d, patch, tree[patch.targets[n] := content], n + 1)
  {
    hide ApplyAll, Split, Times;
    var p := patch.targets[n];
    ContentAsCounted(d, patch, tree, n, p);
    var now, more := tree[p := content], n + 1;
    forall q
      ensures AsCounted(d, patch, now, more, q)
    {
      TimesOneMore(patch.targets, n, q);
      assert AsCounted(d, patch, tree, n, q);
    }
  }

  lemma TreeWritten(a: Attempt, patch: Patch, p: Path)
    ensures var edited, next := ApplyAll(ContentAt(a.disk.tree, p), Split(patch.diff)), NextFile(a, patch, p, NoFault);
            next.ok == (a.ok && edited.Some?) && (next.ok ==> next.disk.tree == a.disk.tree[p := edited.value])
  {
    hide ApplyAll, Split;
  }

  /** Without faults an apply gets past the first `n` targets exactly if the diff applies
      to each as often as it is listed, and then leaves every path as often edited. */
  lemma {:induction false} TreeByCount(d: Disk, patch: Patch, n: nat)
    requires n <= |patch.targets|
    ensures Attempted(d, patch, ALL_WELL, n).ok <==> AppliesInTurn(d, patch, n)
    ensures Attempted(d, patch, ALL_WELL, n).ok ==> AllCounted(d, patch, TreeAt(d, patch, n), n)
  {
    hide ApplyAll, Split, NextFile, AllCounted, AppliesInTurn;
    if n == 0 {
      NoTurns(d, patch);
    } else {
      TreeByCount(d, patch, n - 1);
      var a := Attempted(d, patch, ALL_WELL, n - 1);
      if a.ok {
        TreeWritten(a, patch, patch.targets[n - 1]);
        OneMoreApplies(d, patch, n - 1, a.disk.tree);
        if AppliesInTurn(d, patch, n) {
          OneMoreCounted(d, patch, n - 1, a.disk.tree,
                         ApplyAll(ContentAt(a.disk.tree, patch.targets[n - 1]), Split(patch.diff)).value);
        }
      } else {
        NoneFurther(d, patch, n - 1);
      }
    }
  }

  lemma NoTurns(d: Disk, patch: Patch)
    ensures AppliesInTurn(d, patch, 0) && AllCounted(d, patch, d.tree, 0)
  {
    assert forall q :: AsCounted(d, patch, d.tree, 0, q);
  }

  lemma NoneFurther(d: Disk, patch: Patch, n: nat)
    requires n < |patch.targets| && !AppliesInTurn(d, patch, n)
    ensures !AppliesInTurn(d, patch, n + 1)
  {
    hide ApplyAll, Split, Times, Iterated;
    var q :| q in patch.targets[..n]
             && Iterated(ContentAt(d.tree, q), Split(patch.diff), Times(patch.targets[..n], q)).None?;
    assert patch.targets[..n + 1] == patch.targets[..n] + [patch.targets[n]];
    TimesOneMore(patch.targets, n, q);
    IteratedStops(ContentAt(d.tree, q), Split(patch.diff), Times(patch.targets[..n], q),
                  Times(patch.targets[..n + 1], q));
  }

  // ----- What a successful apply records -----

  /** Old backups stay and no new one takes an old name. */
  ghost predicate KeepsBackups(d: Disk, now: Disk) {
    && d.next <= now.next
    && (forall b :: b in d.backups ==> b in now.backups && now.backups[b] == d.backups[b])
    && (forall b :: b in now.backups ==> b in d.backups || b >= d.next)
  }

  /** The new manifest lines record every replaced file as it was before its replacement. */
  ghost predicate RecordedEach(backups: map<nat, Content>, entries: seq<Entry>, targets: seq<Path>, trees: seq<Tree>) {
    && |entries| == |targets| == |trees|
    && forall i :: 0 <= i < |entries| ==> RecordedEntry(backups, entries[i], targets[i], trees[i])
  }

  ghost function TreesBefore(d: Disk, patch: Patch, n: nat): (r: seq<Tree>)
    requires n <= |patch.targets|
    ensures |r| == n
  {
    seq(n, i requires 0 <= i < n => TreeAt(d, patch, i))
  }

  ghost predicate Along(d: Disk, patch: Patch, n: nat, own: seq<Entry>)
    requires n <= |patch.targets|
  {
    var now := Attempted(d, patch, ALL_WELL, n).disk;
    && Fresh(now) && KeepsBackups(d, now) && SameOutside(now.tree, d.tree, patch.targets[..n])
    && now.manifest == d.manifest + own && (forall e :: e in own ==> e.ticket == patch.ticket)
    && RecordedEach(now.backups, own, patch.targets[..n], TreesBefore(d, patch, n))
  }

  /** What one successful replacement does to the disk. */
  ghost predicate OneReplaced(was: Disk, now: Disk, p: Path, e: Entry) {
    && Fresh(now) && KeepsBackups(was, now) && now.manifest == was.manifest + [e]
    && RecordedEntry(now.backups, e, p, was.tree)
    && forall q :: q != p ==> Same(now.tree, was.tree, q)
  }

  lemma ReplacedOne(a: Attempt, patch: Patch, p: Path) returns (e: Entry)
    requires a.ok && NextFile(a, patch, p, NoFault).ok && Fresh(a.disk)
    ensures e.ticket == patch.ticket && OneReplaced(a.disk, NextFile(a, patch, p, NoFault).disk, p, e)
  {
    hide ApplyAll, Split;
    e := Entry(patch.ticket, p, a.disk.next, p !in a.disk.tree);
  }

  lemma KeepsBackupsOver(a: Disk, b: Disk, c: Disk)
    requires KeepsBackups(a, b) && KeepsBackups(b, c)
    ensures KeepsBackups(a, c)
  {
  }

  lemma RecordedOneMore(was: map<nat, Content>, now: map<nat, Content>, entries: seq<Entry>, targets: seq<Path>,
                        trees: seq<Tree>, e: Entry, p: Path, tree: Tree)
    requires RecordedEach(was, entries, targets, trees) && RecordedEntry(now, e, p, tree)
    requires forall b :: b in was ==> b in now && now[b] == was[b]
    ensures RecordedEach(now, entries + [e], targets + [p], trees + [tree])
  {
    forall i | 0 <= i < |entries|
      ensures RecordedEntry(now, entries[i], targets[i], trees[i])
    {
      assert RecordedEntry(was, entries[i], targets[i], trees[i]);
    }
  }

  lemma AlongNext(d: Disk, patch: Patch, n: nat, own: seq<Entry>) returns (longer: seq<Entry>)
    requires n < |patch.targets| && Along(d, patch, n, own)
    requires Attempted(d, patch, ALL_WELL, n).ok && Attempted(d, patch, ALL_WELL, n + 1).ok
    ensures Along(d, patch, n + 1, longer)
  {
    hide NextFile, RecordedEach, RecordedEntry, KeepsBackups, Fresh;
    var p, a := patch.targets[n], Attempted(d, patch, ALL_WELL, n);
    var now := Attempted(d, patch, ALL_WELL, n + 1).disk;
    assert Attempted(d, patch, ALL_WELL, n + 1) == NextFile(a, patch, p, NoFault);
    var e := ReplacedOne(a, patch, p);
    longer := own + [e];
    assert patch.targets[..n + 1] == patch.targets[..n] + [p];
    assert TreesBefore(d, patch, n + 1) == TreesBefore(d, patch, n) + [a.disk.tree];
    KeepsBackupsOver(d, a.disk, now);
    BackupsStay(a.disk, now);
    RecordedOneMore(a.disk.backups, now.backups, own, patch.targets[..n], TreesBefore(d, patch, n), e, p, a.disk.tree);
    assert (d.manifest + own) + [e] == d.manifest + longer;
    forall q | q !in patch.targets[..n + 1]
      ensures Same(now.tree, d.tree, q)
    {
      assert patch.targets[..n + 1][n] == p;
      assert Same(a.disk.tree, d.tree, q) && Same(now.tree, a.disk.tree, q);
    }
  }

  lemma BackupsStay(was: Disk, now: Disk)
    requires KeepsBackups(was, now)
    ensures forall b :: b in was.backups ==> b in now.backups && now.backups[b] == was.backups[b]
  {
  }

  lemma {:induction false} AlongAll(d: Disk, patch: Patch, n: nat) returns (own: seq<Entry>)
    requires n <= |patch.targets| && Fresh(d) && Attempted(d, patch, ALL_WELL, n).ok
    ensures Along(d, patch, n, own)
  {
    if n == 0 {
      own := [];
      assert d.manifest + [] == d.manifest;
    } else {
      hide Along;
      FaultlessPrefix(d, patch, ALL_WELL, n);
      own := AlongAll(d, patch, n - 1);
      own := AlongNext(d, patch, n - 1, own);
    }
  }

  // ----- Undoing entry lists -----

  lemma {:induction false} EntriesConcat(m: seq<Entry>, own: seq<Entry>, t: Ticket)
    requires forall e :: e in own ==> e.ticket == t
    ensures EntriesOf(m + own, t) == EntriesOf(m, t) + own
  {
    if own == [] {
      assert m + own == m && EntriesOf(m, t) + [] == EntriesOf(m, t);
    } else {
      hide EntriesOf;
      var front, last := own[..|own| - 1], own[|own| - 1];
      EntriesConcat(m, front, t);
      assert own == front + [last] && last in own;
      Associate(m, front, [last]);
      EntriesAppend(m + front, last, t);
      Associate(EntriesOf(m, t), front, [last]);
    }
  }

  lemma {:induction false} UndoneConcat(d: Disk, a: seq<Entry>, b: seq<Entry>)
    ensures Undone(d, a + b) == Undone(Undone(d, a), b)
  {
    if b == [] {
      assert a + b == a;
    } else {
      UndoneConcat(d, a, b[..|b| - 1]);
      assert (a + b)[..|a + b| - 1] == a + b[..|b| - 1];
    }
  }

  function LastIndex(targets: seq<Path>, p: Path): (i: nat)
    requires p in targets
    ensures i < |targets| && targets[i] == p && p !in targets[i + 1..]
  {
    var n := |targets| - 1;
    if targets[n] == p then n
    else
      assert targets == targets[..n] + [targets[n]];
      var i := LastIndex(targets[..n], p);
      assert targets[i + 1..] == targets[..n][i + 1..] + [targets[n]];
      i
  }

  /** Undoing entries in order, the last one for a path decides. */
  lemma {:induction false} UndoneAt(d: Disk, entries: seq<Entry>, targets: seq<Path>, trees: seq<Tree>, p: Path)
    requires RecordedEach(d.backups, entries, targets, trees)
    ensures Undone(d, entries).backups == d.backups
    ensures Same(Undone(d, entries).tree, if p in targets then trees[LastIndex(targets, p)] else d.tree, p)
  {
    if entries != [] {
      hide RecordedEntry, UndoEntry;
      var n := |entries| - 1;
      UndoneAt(d, entries[..n], targets[..n], trees[..n], p);
      assert RecordedEntry(d.backups, entries[n], targets[n], trees[n]);
      UndoneOne(Undone(d, entries[..n]), entries[n], targets[n], trees[n]);
      assert targets == targets[..n] + [targets[n]];
    }
  }

  /** Entries act alike on disks that agree on their backups. */
  lemma {:induction false} UndoneAlike(a: Disk, b: Disk, entries: seq<Entry>, p: Path)
    requires Same(a.tree, b.tree, p)
    requires forall e :: e in entries && !e.created ==>
               && (e.backup in a.backups <==> e.backup in b.backups)
               && (e.backup in a.backups ==> a.backups[e.backup] == b.backups[e.backup])
    ensures Same(Undone(a, entries).tree, Undone(b, entries).tree, p)
  {
    if entries != [] {
      var n := |entries| - 1;
      UndoneAlike(a, b, entries[..n], p);
      UndoKeepsRecords(a, entries[..n]);
      UndoKeepsRecords(b, entries[..n]);
      assert entries[n] in entries;
    }
  }

  // ----- Rolling back after an apply -----

  /** The backups recorded under a ticket have names that were given out. */
  ghost predicate Issued(d: Disk, ticket: Ticket) {
    forall e :: e in EntriesOf(d.manifest, ticket) && !e.created ==> e.backup < d.next
  }

  /** For any targets and any ticket: rolling back gives every target its state before its
      last replacement, and every other path what rolling back before the apply gave. */
  lemma RollbackAfterApply(d: Disk, patch: Patch, p: Path)
    requires Fresh(d) && Issued(d, patch.ticket) && Succeeds(d, patch, ALL_WELL)
    ensures Same(RolledBack(Applied(d, patch, ALL_WELL), patch.ticket).tree,
                 if p in patch.targets then TreeAt(d, patch, LastIndex(patch.targets, p))
                 else RolledBack(d, patch.ticket).tree, p)
  {
    hide EntriesOf, Undone, Attempted;
    var n, after := |patch.targets|, Applied(d, patch, ALL_WELL);
    var own := AlongAll(d, patch, n);
    assert patch.targets[..n] == patch.targets;
    var before := EntriesOf(d.manifest, patch.ticket);
    EntriesConcat(d.manifest, own, patch.ticket);
    UndoneConcat(after, before, own);
    UndoKeepsRecords(after, before);
    UndoneAt(Undone(after, before), own, patch.targets, TreesBefore(d, patch, n), p);
    if p !in patch.targets {
      assert Same(after.tree, d.tree, p);
      UndoneAlike(after, d, before, p);
    }
  }

  lemma {:induction false} DistinctLast(targets: seq<Path>, p: Path)
    requires Distinct(targets) && p in targets
    ensures p !in targets[..LastIndex(targets, p)]
  {
    var i := LastIndex(targets, p);
  }

  /** A ticket that was used before: rolling back restores the tree from before the last
      apply exactly if the earlier entries touch nothing outside its targets, and the tree
      that rolling back earlier would have given exactly if they change none of its targets. */
  lemma ReusedTicketRestoresIff(d: Disk, patch: Patch, faults: Faults)
    requires Fresh(d) && Issued(d, patch.ticket) && Distinct(patch.targets) && Succeeds(d, patch, faults)
    ensures var result := RolledBack(Applied(d, patch, faults), patch.ticket).tree;
            var earlier := RolledBack(d, patch.ticket).tree;
            && (result == d.tree <==> SameOutside(earlier, d.tree, patch.targets))
            && (result == earlier <==> SameOn(earlier, d.tree, patch.targets))
  {
    hide RolledBack, Applied, Succeeds, Issued;
    SuccessIsFaultless(d, patch, faults);
    var result, earlier := RolledBack(Applied(d, patch, ALL_WELL), patch.ticket).tree, RolledBack(d, patch.ticket).tree;
    forall p
      ensures Same(result, if p in patch.targets then d.tree else earlier, p)
    {
      RollbackAfterApply(d, patch, p);
      if p in patch.targets { FirstReplacement(d, patch, p); }
    }
    if SameOutside(earlier, d.tree, patch.targets) {
      forall p
        ensures Same(result, d.tree, p)
      {
        assert Same(result, if p in patch.targets then d.tree else earlier, p);
      }
      SameTree(result, d.tree);
    }
    if SameOn(earlier, d.tree, patch.targets) {
      forall p
        ensures Same(result, earlier, p)
      {
        assert Same(result, if p in patch.targets then d.tree else earlier, p);
      }
      SameTree(result, earlier);
    }
    assert forall p :: p !in patch.targets ==> Same(result, earlier, p);
    assert forall p :: p in patch.targets ==> Same(result, d.tree, p);
  }

  /** A target named once is still as it was when its turn comes. */
  lemma FirstReplacement(d: Disk, patch: Patch, p: Path)
    requires Fresh(d) && Distinct(patch.targets) && Succeeds(d, patch, ALL_WELL) && p in patch.targets
    ensures Same(TreeAt(d, patch, LastIndex(patch.targets, p)), d.tree, p)
  {
    var i := LastIndex(patch.targets, p);
    EarlierOk(d, patch, ALL_WELL, i, |patch.targets|);
    var own := AlongAll(d, patch, i);
    DistinctLast(patch.targets, p);
  }

  /** The last turn of a target finds it as it was: it is listed once, or it is an old file
      that the diff, applied once less often than it is listed, gives back. */
  ghost predicate ComesBack(tree: Tree, hunks: seq<Hunk>, p: Path, times: nat) {
    times == 1 || (times > 1 && p in tree && Iterated(tree[p], hunks, times - 1) == Some(tree[p]))
  }

  lemma {:induction false} TimesBeforeLast(targets: seq<Path>, p: Path)
    requires p in targets
    ensures Times(targets[..LastIndex(targets, p)], p) == Times(targets, p) - 1
  {
    var n := |targets| - 1;
    if targets[n] != p {
      assert targets == targets[..n] + [targets[n]];
      TimesBeforeLast(targets[..n], p);
      assert targets[..n][..LastIndex(targets[..n], p)] == targets[..LastIndex(targets, p)];
    }
  }

  lemma LastTurn(d: Disk, patch: Patch, p: Path)
    requires Succeeds(d, patch, ALL_WELL) && p in patch.targets
    ensures Same(TreeAt(d, patch, LastIndex(patch.targets, p)), d.tree, p)
            <==> ComesBack(d.tree, Split(patch.diff), p, Times(patch.targets, p))
  {
    hide ApplyAll, Split, Attempted, TreeAt, Times, AppliesInTurn;
    var i := LastIndex(patch.targets, p);
    EarlierOk(d, patch, ALL_WELL, i, |patch.targets|);
    TreeByCount(d, patch, i);
    TimesBeforeLast(patch.targets, p);
    ListedIsCounted(patch.targets, p);
    var tree := TreeAt(d, patch, i);
    assert AsCounted(d, patch, tree, i, p);
    if p !in d.tree { assert Iterated([], Split(patch.diff), 0) == Some([]); }
  }

  /** Targets may repeat: rolling back a fresh ticket restores the tree exactly if every
      target comes back. */
  lemma RepeatedTargetRestoresIff(d: Disk, patch: Patch, faults: Faults)
    requires Fresh(d) && EntriesOf(d.manifest, patch.ticket) == [] && Succeeds(d, patch, faults)
    ensures RolledBack(Applied(d, patch, faults), patch.ticket).tree == d.tree
            <==> forall p :: p in patch.targets ==> ComesBack(d.tree, Split(patch.diff), p, Times(patch.targets, p))
  {
    hide RolledBack, Applied, Succeeds, TreeAt, ComesBack, Times, Split;
    SuccessIsFaultless(d, patch, faults);
    var result := RolledBack(Applied(d, patch, ALL_WELL), patch.ticket).tree;
    NothingToUndo(d, patch.ticket);
    forall p
      ensures Same(result, d.tree, p)
              <==> p in patch.targets ==> ComesBack(d.tree, Split(patch.diff), p, Times(patch.targets, p))
    {
      RollbackAfterApply(d, patch, p);
      if p in patch.targets { LastTurn(d, patch, p); }
    }
    if forall p :: p in patch.targets ==> ComesBack(d.tree, Split(patch.diff), p, Times(patch.targets, p)) {
      assert forall p :: Same(result, d.tree, p);
      SameTree(result, d.tree);
    }
  }

  lemma NothingToUndo(d: Disk, ticket: Ticket)
    requires EntriesOf(d.manifest, ticket) == []
    ensures Issued(d, ticket) && RolledBack(d, ticket) == d
  {
  }

  // ----- Failures over any targets -----

  /** A failed apply keeps every file it found, whatever the fault. */
  ghost predicate FailuresKeepFiles(d: Disk, patch: Patch) {
    forall faults: Faults, p: Path ::
      !Succeeds(d, patch, faults) && p in d.tree ==> Same(Applied(d, patch, faults).tree, d.tree, p)
  }

  /** The turn with number `j` is reached, and its target is an old file that its earlier
      turns have changed and that the diff applies to once more. */
  ghost predicate ChangedByTurn(d: Disk, patch: Patch, j: nat)
    requires j < |patch.targets|
  {
    var p, hunks := patch.targets[j], Split(patch.diff);
    var turns := Times(patch.targets[..j], p);
    && AppliesInTurn(d, patch, j) && p in d.tree
    && Iterated(d.tree[p], hunks, turns) != Some(d.tree[p]) && Iterated(d.tree[p], hunks, turns + 1).Some?
  }

  /** What that says about the tree the turn finds. */
  lemma ChangedTree(d: Disk, patch: Patch, j: nat)
    requires j < |patch.targets|
    ensures var p, now := patch.targets[j], TreeAt(d, patch, j);
            ChangedByTurn(d, patch, j)
            <==> Attempted(d, patch, ALL_WELL, j).ok && p in d.tree && !Same(now, d.tree, p)
                 && ApplyAll(ContentAt(now, p), Split(patch.diff)).Some?
  {
    hide ApplyAll, Split, Times, Attempted, AllCounted, AppliesInTurn;
    TreeByCount(d, patch, j);
    if Attempted(d, patch, ALL_WELL, j).ok {
      ContentAsCounted(d, patch, TreeAt(d, patch, j), j, patch.targets[j]);
    }
  }

  /** What is saved of an old file is its first content. */
  ghost predicate SavedFirst(d: Disk, a: Attempt) {
    && Fresh(a.disk)
    && (forall s :: s in a.saved ==> s.backup in a.disk.backups)
    && (forall s :: s in a.saved && s.target in d.tree ==> a.disk.backups[s.backup] == d.tree[s.target])
    && (forall p :: p in d.tree ==> p in a.disk.tree && (Same(a.disk.tree, d.tree, p) || IsSaved(a.saved, p)))
  }

  lemma SavedFirstBackup(d: Disk, a: Attempt, p: Path)
    requires SavedFirst(d, a) && (p in d.tree ==> Same(a.disk.tree, d.tree, p))
    ensures SavedFirst(d, BackedUp(a, p))
    ensures p in d.tree ==> IsSaved(BackedUp(a, p).saved, p)
  {
    var b := BackedUp(a, p);
    if p in a.disk.tree {
      assert b.saved == a.saved + [Saved(p, a.disk.next)] && b.saved[|a.saved|] == Saved(p, a.disk.next);
      forall q | IsSaved(a.saved, q)
        ensures IsSaved(b.saved, q)
      {
        var s :| s in a.saved && s.target == q;
        assert s in b.saved;
      }
    }
  }

  /** Handling one more file keeps it, unless that file has changed. */
  lemma SavedFirstNext(d: Disk, a: Attempt, patch: Patch, p: Path, fault: Fault)
    requires SavedFirst(d, a)
    requires p in d.tree && ApplyAll(ContentAt(a.disk.tree, p), Split(patch.diff)).Some? ==>
          Same(a.disk.tree, d.tree, p)
    ensures SavedFirst(d, NextFile(a, patch, p, fault))
  {
    hide ApplyAll, Split;
    var edited := ApplyAll(ContentAt(a.disk.tree, p), Split(patch.diff));
    if edited.Some? && !fault.BeforeBackup? {
      hide BackedUp, SavedFirst;
      var backed, e := BackedUp(a, p), Entry(patch.ticket, p, a.disk.next, p !in a.disk.tree);
      SavedFirstBackup(d, a, p);
      SavedFirstRest(d, backed, e, p, edited.value);
    }
  }

  lemma SavedFirstRest(d: Disk, a: Attempt, e: Entry, p: Path, content: Content)
    requires SavedFirst(d, a) && (p in d.tree ==> IsSaved(a.saved, p))
    ensures SavedFirst(d, a.(ok := false)) && SavedFirst(d, Logged(a, e)) && SavedFirst(d, Logged(a, e).(ok := false))
    ensures SavedFirst(d, Written(Logged(a, e), p, content))
  {
  }

  lemma {:induction false} SavedFirstAlong(d: Disk, patch: Patch, faults: Faults, n: nat)
    requires n <= |patch.targets| && Fresh(d)
    requires forall j :: 0 <= j < |patch.targets| ==> !ChangedByTurn(d, patch, j)
    ensures SavedFirst(d, Attempted(d, patch, faults, n))
  {
    if n > 0 {
      hide SavedFirst, NextFile, ChangedByTurn, ApplyAll, Split;
      SavedFirstAlong(d, patch, faults, n - 1);
      var a := Attempted(d, patch, faults, n - 1);
      if a.ok {
        FaultlessPrefix(d, patch, faults, n - 1);
        ChangedTree(d, patch, n - 1);
        SavedFirstNext(d, a, patch, patch.targets[n - 1], faults(n - 1));
      }
    } else {
      SavedFirstStart(d);
    }
  }

  lemma SavedFirstStart(d: Disk)
    requires Fresh(d)
    ensures SavedFirst(d, Attempt(d, [], true))
  {
  }

  /** Restoring gives a saved path the content of its last backup. */
  lemma {:induction false} PutBackFirst(d: Disk, saved: seq<Saved>, first: Tree, p: Path)
    requires p in first && forall s :: s in saved && s.target == p ==>
          s.backup in d.backups && d.backups[s.backup] == first[p]
    ensures Same(PutBack(d, saved).tree, if IsSaved(saved, p) then first else d.tree, p)
  {
    if saved != [] {
      var front, s := saved[..|saved| - 1], saved[|saved| - 1];
      assert saved == front + [s] && s in saved;
      PutBackFirst(d, front, first, p);
      assert IsSaved(saved, p) <==> IsSaved(front, p) || s.target == p by {
        if IsSaved(front, p) {
          var f :| f in front && f.target == p;
          assert f in saved;
        }
      }
    }
  }

  /** The fault that shows it: the changed file is backed up, and not replaced. */
  lemma ChangedFileIsLost(d: Disk, patch: Patch, j: nat) returns (faults: Faults)
    requires j < |patch.targets| && ChangedByTurn(d, patch, j)
    ensures !Succeeds(d, patch, faults) && !Same(Applied(d, patch, faults).tree, d.tree, patch.targets[j])
  {
    hide ApplyAll, Split, ChangedByTurn, NextFile, PutBack;
    ChangedTree(d, patch, j);
    faults := (i: nat) => if i == j then BeforeReplace else NoFault;
    SameFaults(d, patch, faults, j);
    var a, p := Attempted(d, patch, ALL_WELL, j), patch.targets[j];
    StillThere(d, patch, j, p);
    NotReplaced(a, patch, p);
    FailureLasts(d, patch, faults, j + 1);
  }

  /** A failure just before the replacement puts back what was there just before. */
  lemma NotReplaced(a: Attempt, patch: Patch, p: Path)
    requires p in a.disk.tree && ApplyAll(ContentAt(a.disk.tree, p), Split(patch.diff)).Some?
    ensures var last := NextFile(a, patch, p, BeforeReplace);
            !last.ok && Same(PutBack(last.disk, last.saved).tree, a.disk.tree, p)
  {
    hide ApplyAll, Split;
    var last, s := NextFile(a, patch, p, BeforeReplace), Saved(p, a.disk.next);
    assert last.saved == a.saved + [s] && last.saved[..|a.saved|] == a.saved;
    assert last.disk.backups[s.backup] == a.disk.tree[p];
  }

  lemma {:induction false} SameFaults(d: Disk, patch: Patch, faults: Faults, n: nat)
    requires n <= |patch.targets| && forall i: nat :: i < n ==> faults(i) == NoFault
    ensures Attempted(d, patch, faults, n) == Attempted(d, patch, ALL_WELL, n)
  {
    if n > 0 {
      hide NextFile;
      SameFaults(d, patch, faults, n - 1);
    }
  }

  /** No apply removes a file. */
  lemma {:induction false} StillThere(d: Disk, patch: Patch, n: nat, p: Path)
    requires n <= |patch.targets| && p in d.tree
    ensures p in TreeAt(d, patch, n)
  {
    if n > 0 {
      hide ApplyAll, Split;
      StillThere(d, patch, n - 1, p);
    }
  }

  /** For any targets: every failing apply keeps every file it found if and only if no
      target is changed by the time its turn comes, that is, unless a repeated target is
      an old file that the diff changes and applies to again. */
  lemma FailuresKeepFilesIff(d: Disk, patch: Patch)
    requires Fresh(d)
    ensures FailuresKeepFiles(d, patch) <==> forall j :: 0 <= j < |patch.targets| ==> !ChangedByTurn(d, patch, j)
  {
    if j :| 0 <= j < |patch.targets| && ChangedByTurn(d, patch, j) {
      var faults := ChangedFileIsLost(d, patch, j);
      assert patch.targets[j] in d.tree;
    } else {
      forall faults: Faults, p: Path | !Succeeds(d, patch, faults) && p in d.tree
        ensures Same(Applied(d, patch, faults).tree, d.tree, p)
      {
        var a := Attempted(d, patch, faults, |patch.targets|);
        SavedFirstAlong(d, patch, faults, |patch.targets|);
        PutBackFirst(a.disk, a.saved, d.tree, p);
      }
    }
  }

  // ----- Witnesses -----

  /** A file that a failed apply created under a ticket is not removed by rolling back a
      later apply under the same ticket: it comes back as the failed apply left it. */
  lemma ReusedTicketLeavesResidue(d: Disk, patch: Patch, p: Path, b: nat)
    requires Fresh(d) && patch.targets == [p] && p in d.tree && Succeeds(d, patch, ALL_WELL)
    requires EntriesOf(d.manifest, patch.ticket) == [Entry(patch.ticket, p, b, true)]
    ensures RolledBack(d, patch.ticket).tree == d.tree - {p}
    ensures RolledBack(Applied(d, patch, ALL_WELL), patch.ticket).tree == d.tree
  {
    hide NextFile, Applied, Succeeds, EntriesOf, Attempted;
    var entries := EntriesOf(d.manifest, patch.ticket);
    assert entries[..0] == [];
    assert Undone(d, entries) == UndoEntry(d, entries[0]);
    ReusedTicketRestoresIff(d, patch, ALL_WELL);
  }

  /** A target named twice: the second backup holds what the first replacement wrote, so
      neither a failure there nor a rollback brings the file back, unless the diff changes nothing. */
  lemma RepeatedTargetRestoresWrongVersion(d: Disk, patch: Patch, p: Path)
    requires Fresh(d) && patch.targets == [p, p] && p in d.tree
    requires ApplyAll(d.tree[p], Split(patch.diff)).Some?
    requires ApplyAll(ApplyAll(d.tree[p], Split(patch.diff)).value, Split(patch.diff)).Some?
    ensures var edited := ApplyAll(d.tree[p], Split(patch.diff)).value;
            && (FailuresKeepFiles(d, patch) <==> edited == d.tree[p])
            && (EntriesOf(d.manifest, patch.ticket) == [] ==>
                  && Succeeds(d, patch, ALL_WELL)
                  && (RolledBack(Applied(d, patch, ALL_WELL), patch.ticket).tree == d.tree <==> edited == d.tree[p]))
  {
    hide ApplyAll, Split, RolledBack, Applied, Attempted, FailuresKeepFiles, Iterated, Times;
    var edited := ApplyAll(d.tree[p], Split(patch.diff)).value;
    TwoTurns(d, patch, p, edited);
    FailuresKeepFilesIff(d, patch);
    if EntriesOf(d.manifest, patch.ticket) == [] {
      TreeByCount(d, patch, 2);
      RepeatedTargetRestoresIff(d, patch, ALL_WELL);
    }
  }

  lemma TwoTurns(d: Disk, patch: Patch, p: Path, edited: Content)
    requires patch.targets == [p, p] && p in d.tree
    requires ApplyAll(d.tree[p], Split(patch.diff)) == Some(edited) && ApplyAll(edited, Split(patch.diff)).Some?
    ensures !ChangedByTurn(d, patch, 0) && (ChangedByTurn(d, patch, 1) <==> edited != d.tree[p])
    ensures AppliesInTurn(d, patch, 2) && Times(patch.targets, p) == 2
    ensures Iterated(d.tree[p], Split(patch.diff), 1) == Some(edited)
  {
    hide ApplyAll, Split;
    var hunks := Split(patch.diff);
    assert [p, p][..2] == [p, p] && [p, p][..1] == [p] && [p][..0] == [];
    assert Times([], p) == 0 && Times([p], p) == 1 && Times([p, p], p) == 2;
    assert Iterated(d.tree[p], hunks, 0) == Some(d.tree[p]) && Iterated(d.tree[p], hunks, 1) == Some(edited);
    assert Iterated(d.tree[p], hunks, 2) == ApplyAll(edited, hunks);
  }
}
