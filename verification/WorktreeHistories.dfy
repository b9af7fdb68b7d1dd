/** Histories of patches: rolling back newest first, or in any order when the targets
    are disjoint. */
module WorktreeHistories {
  import opened Worktree
  import opened WorktreeResults

  const ALL_WELL: Faults := (i: nat) => NoFault

  /** The disk after applying the patches in turn. */
  ghost function History(d: Disk, patches: seq<Patch>): Disk {
    if patches == [] then d
    else Applied(History(d, patches[..|patches| - 1]), patches[|patches| - 1], ALL_WELL)
  }

  /** Every patch applies to what the ones before it left. */
  ghost predicate AllSucceed(d: Disk, patches: seq<Patch>) {
    forall k :: 0 <= k < |patches| ==> Succeeds(History(d, patches[..k]), patches[k], ALL_WELL)
  }

  /** Distinct targets within each patch, and a ticket of its own for each. */
  ghost predicate ProperPatches(d: Disk, patches: seq<Patch>) {
    && (forall k :: 0 <= k < |patches| ==>
          Distinct(patches[k].targets) && EntriesOf(d.manifest, patches[k].ticket) == [])
    && (forall i, j :: 0 <= i < j < |patches| ==> patches[i].ticket != patches[j].ticket)
  }

  /** What each patch replaced is still on record. */
  ghost predicate OnRecord(d0: Disk, e: Disk, patches: seq<Patch>) {
    forall k :: 0 <= k < |patches| ==>
      Recorded(e, patches[k].ticket, patches[k].targets, History(d0, patches[..k]).tree)
  }

  lemma StillRecorded(earlier: Disk, d: Disk, ticket: Ticket, other: Ticket, targets: seq<Path>, before: Tree)
    requires Extends(earlier, d, ticket) && other != ticket && Recorded(earlier, other, targets, before)
    ensures Recorded(d, other, targets, before)
  {
    RecordedLonger(earlier.backups, d.backups, EntriesOf(earlier.manifest, other), targets, before);
  }

  ghost predicate Unused(patches: seq<Patch>, t: Ticket) {
    forall k :: 0 <= k < |patches| ==> patches[k].ticket != t
  }

  lemma {:induction false} HistoryEntries(d: Disk, patches: seq<Patch>, t: Ticket)
    requires Fresh(d) && ProperPatches(d, patches) && AllSucceed(d, patches) && Unused(patches, t)
    ensures Fresh(History(d, patches)) && EntriesOf(History(d, patches).manifest, t) == EntriesOf(d.manifest, t)
  {
    if patches != [] {
      hide AllSucceed, ProperPatches, Applied, Fresh, Edited, Recorded;
      var n := |patches| - 1;
      FrontProper(d, patches);
      HistoryEntries(d, patches[..n], t);
      HistoryEntries(d, patches[..n], patches[n].ticket);
      ApplyThenRollback(History(d, patches[..n]), patches[n], ALL_WELL);
    }
  }

  /** What the last patch of a history does to the disk before it. */
  lemma LastApplied(d: Disk, patches: seq<Patch>)
    requires Fresh(d) && ProperPatches(d, patches) && AllSucceed(d, patches) && patches != []
    ensures var n := |patches| - 1; var e, last := History(d, patches[..n]), patches[n];
            && Extends(e, History(d, patches), last.ticket) && Fresh(History(d, patches))
            && SameOutside(History(d, patches).tree, e.tree, last.targets)
            && Recorded(History(d, patches), last.ticket, last.targets, e.tree)
  {
    hide AllSucceed, Applied, Fresh, Edited, Recorded, Extends, RolledBack;
    var n := |patches| - 1;
    FrontProper(d, patches);
    HistoryEntries(d, patches[..n], patches[n].ticket);
    ApplyThenRollback(History(d, patches[..n]), patches[n], ALL_WELL);
  }

  lemma {:induction false} HistoryOnRecord(d: Disk, patches: seq<Patch>)
    requires Fresh(d) && ProperPatches(d, patches) && AllSucceed(d, patches)
    ensures Fresh(History(d, patches)) && OnRecord(d, History(d, patches), patches)
  {
    if patches != [] {
      hide History, AllSucceed, Recorded, Fresh, Extends;
      var n := |patches| - 1;
      var front, last := patches[..n], patches[n];
      FrontProper(d, patches);
      LastApplied(d, patches);
      HistoryOnRecord(d, front);
      forall k | 0 <= k < |patches|
        ensures Recorded(History(d, patches), patches[k].ticket, patches[k].targets, History(d, patches[..k]).tree)
      {
        if k < n {
          assert front[..k] == patches[..k] && front[k] == patches[k];
          StillRecorded(History(d, front), History(d, patches), last.ticket, patches[k].ticket, patches[k].targets,
                        History(d, patches[..k]).tree);
        }
      }
    }
  }

  lemma FrontProper(d: Disk, patches: seq<Patch>)
    requires patches != [] && ProperPatches(d, patches) && AllSucceed(d, patches)
    ensures var n := |patches| - 1;
            && ProperPatches(d, patches[..n]) && AllSucceed(d, patches[..n])
            && Succeeds(History(d, patches[..n]), patches[n], ALL_WELL) && Distinct(patches[n].targets)
            && forall k :: 0 <= k < n ==> patches[..n][k].ticket != patches[n].ticket
  {
    var n := |patches| - 1;
    forall k | 0 <= k < n
      ensures Succeeds(History(d, patches[..n][..k]), patches[..n][k], ALL_WELL)
    {
      assert patches[..n][..k] == patches[..k] && patches[..n][k] == patches[k];
    }
  }

  lemma {:induction false} RollbackKeepsRecords(d: Disk, ticket: Ticket)
    ensures RolledBack(d, ticket).backups == d.backups && RolledBack(d, ticket).manifest == d.manifest
  {
    UndoKeepsRecords(d, EntriesOf(d.manifest, ticket));
  }

  lemma {:induction false} UndoKeepsRecords(d: Disk, entries: seq<Entry>)
    ensures Undone(d, entries).backups == d.backups && Undone(d, entries).manifest == d.manifest
  {
    if entries != [] {
      UndoKeepsRecords(d, entries[..|entries| - 1]);
    }
  }

  /** Rolling back the newest patches down to the first `keep`. */
  ghost function Rewound(e: Disk, patches: seq<Patch>, keep: nat): Disk
    requires keep <= |patches|
    decreases |patches|
  {
    if keep == |patches| then e
    else Rewound(RolledBack(e, patches[|patches| - 1].ticket), patches[..|patches| - 1], keep)
  }

  /** The state a rewind has reached: the tree after `patches`, with everything on record. */
  ghost predicate AtTree(d: Disk, e: Disk, patches: seq<Patch>) {
    OnRecord(d, e, patches) && e.tree == History(d, patches).tree
  }

  lemma RewindStep(d: Disk, e: Disk, patches: seq<Patch>)
    requires Fresh(d) && ProperPatches(d, patches) && AllSucceed(d, patches) && patches != []
    requires AtTree(d, e, patches)
    ensures AtTree(d, RolledBack(e, patches[|patches| - 1].ticket), patches[..|patches| - 1])
  {
    hide EntriesOf, Undone, RolledBack, AllSucceed, History;
    var n := |patches| - 1;
    var front, last := patches[..n], patches[n];
    FrontProper(d, patches);
    LastApplied(d, patches);
    assert Recorded(e, last.ticket, last.targets, History(d, front).tree);
    RollbackRestores(e, last.ticket, last.targets, History(d, front).tree);
    RollbackKeepsRecords(e, last.ticket);
    forall k | 0 <= k < n
      ensures Recorded(RolledBack(e, last.ticket), front[k].ticket, front[k].targets, History(d, front[..k]).tree)
    {
      assert front[..k] == patches[..k] && front[k] == patches[k];
      assert Recorded(e, patches[k].ticket, patches[k].targets, History(d, patches[..k]).tree);
    }
  }

  lemma {:induction false} RewindFrom(d: Disk, e: Disk, patches: seq<Patch>, keep: nat)
    requires Fresh(d) && ProperPatches(d, patches) && AllSucceed(d, patches) && keep <= |patches|
    requires AtTree(d, e, patches)
    ensures Rewound(e, patches, keep).tree == History(d, patches[..keep]).tree
    decreases |patches|
  {
    hide AtTree, History, AllSucceed, ProperPatches, Fresh, RolledBack, Rewound;
    RewoundSteps(e, patches, keep);
    if keep == |patches| {
      assert patches[..keep] == patches;
      AtTreeHas(d, e, patches);
    } else {
      var n := |patches| - 1;
      FrontProper(d, patches);
      RewindStep(d, e, patches);
      RewindFrom(d, RolledBack(e, patches[n].ticket), patches[..n], keep);
      assert patches[..n][..keep] == patches[..keep];
    }
  }

  lemma RewoundSteps(e: Disk, patches: seq<Patch>, keep: nat)
    requires keep <= |patches|
    ensures Rewound(e, patches, keep)
            == if keep == |patches| then e
               else Rewound(RolledBack(e, patches[|patches| - 1].ticket), patches[..|patches| - 1], keep)
  {
  }

  lemma AtTreeHas(d: Disk, e: Disk, patches: seq<Patch>)
    requires AtTree(d, e, patches)
    ensures e.tree == History(d, patches).tree
  {
  }

  /** Rolling back newest first restores every earlier worktree in turn. */
  lemma NewestFirst(d: Disk, patches: seq<Patch>, keep: nat)
    requires Fresh(d) && ProperPatches(d, patches) && AllSucceed(d, patches) && keep <= |patches|
    ensures Rewound(History(d, patches), patches, keep).tree == History(d, patches[..keep]).tree
  {
    HistoryOnRecord(d, patches);
    RewindFrom(d, History(d, patches), patches, keep);
  }

  // ----- Disjoint patches, any order -----

  ghost predicate Disjoint(patches: seq<Patch>) {
    forall i, j, p :: 0 <= i < j < |patches| && p in patches[i].targets ==> p !in patches[j].targets
  }

  ghost predicate Touched(patches: seq<Patch>, p: Path) {
    exists k :: 0 <= k < |patches| && p in patches[k].targets
  }

  lemma {:induction false} HistoryOutside(d: Disk, patches: seq<Patch>, p: Path)
    requires Fresh(d) && ProperPatches(d, patches) && AllSucceed(d, patches) && !Touched(patches, p)
    ensures Same(History(d, patches).tree, d.tree, p)
  {
    if patches != [] {
      var n := |patches| - 1;
      FrontProper(d, patches);
      assert forall k :: 0 <= k < n ==> patches[..n][k] == patches[k];
      HistoryOutside(d, patches[..n], p);
      LastApplied(d, patches);
      assert p !in patches[n].targets;
    }
  }

  /** With disjoint targets each patch replaced what the first tree held. */
  lemma FirstTreeRecorded(d: Disk, patches: seq<Patch>, k: nat)
    requires Fresh(d) && ProperPatches(d, patches) && AllSucceed(d, patches) && Disjoint(patches) && k < |patches|
    ensures Recorded(History(d, patches), patches[k].ticket, patches[k].targets, d.tree)
  {
    HistoryOnRecord(d, patches);
    var e, before, targets := History(d, patches), History(d, patches[..k]).tree, patches[k].targets;
    PrefixProper(d, patches, k);
    var entries := EntriesOf(e.manifest, patches[k].ticket);
    assert RecordedEntries(e.backups, entries, targets, before);
    forall i | 0 <= i < |entries|
      ensures RecordedEntry(e.backups, entries[i], targets[i], d.tree)
    {
      assert RecordedEntry(e.backups, entries[i], targets[i], before);
      assert targets[i] in patches[k].targets;
      NotTouchedBefore(patches, k, targets[i]);
      HistoryOutside(d, patches[..k], targets[i]);
    }
  }

  lemma NotTouchedBefore(patches: seq<Patch>, k: nat, p: Path)
    requires Disjoint(patches) && k < |patches| && p in patches[k].targets
    ensures !Touched(patches[..k], p)
  {
    forall j | 0 <= j < k
      ensures p !in patches[..k][j].targets
    {
      assert p !in patches[j].targets;
    }
  }

  lemma PrefixProper(d: Disk, patches: seq<Patch>, k: nat)
    requires ProperPatches(d, patches) && AllSucceed(d, patches) && k <= |patches|
    ensures ProperPatches(d, patches[..k]) && AllSucceed(d, patches[..k])
  {
    forall j | 0 <= j < k
      ensures Succeeds(History(d, patches[..k][..j]), patches[..k][j], ALL_WELL)
    {
      assert patches[..k][..j] == patches[..j];
    }
  }

  /** Rolling back the patches with these numbers, in this order. */
  ghost function RolledInOrder(e: Disk, patches: seq<Patch>, order: seq<nat>): Disk
    requires forall i :: 0 <= i < |order| ==> order[i] < |patches|
  {
    if order == [] then e
    else RolledBack(RolledInOrder(e, patches, order[..|order| - 1]), patches[order[|order| - 1]].ticket)
  }

  /** The path belongs to one of these patches. */
  ghost predicate Reached(patches: seq<Patch>, order: seq<nat>, p: Path)
    requires forall i :: 0 <= i < |order| ==> order[i] < |patches|
  {
    order != [] && (p in patches[order[|order| - 1]].targets || Reached(patches, order[..|order| - 1], p))
  }

  /** A path is back in its first state once its patch was rolled back, and unchanged until then. */
  ghost predicate Mixed(e: Disk, first: Tree, now: Disk, patches: seq<Patch>, order: seq<nat>)
    requires forall i :: 0 <= i < |order| ==> order[i] < |patches|
  {
    && now.backups == e.backups && now.manifest == e.manifest
    && forall p :: Same(now.tree, if Reached(patches, order, p) then first else e.tree, p)
  }

  lemma MixedNext(e: Disk, first: Tree, now: Disk, patches: seq<Patch>, order: seq<nat>)
    requires order != [] && forall i :: 0 <= i < |order| ==> order[i] < |patches|
    requires Mixed(e, first, now, patches, order[..|order| - 1])
    requires var patch := patches[order[|order| - 1]];
             Distinct(patch.targets) && Recorded(e, patch.ticket, patch.targets, first)
    ensures Mixed(e, first, RolledBack(now, patches[order[|order| - 1]].ticket), patches, order)
  {
    var patch := patches[order[|order| - 1]];
    UndoRestores(now, EntriesOf(now.manifest, patch.ticket), patch.targets, first);
    var after := RolledBack(now, patch.ticket);
    forall p
      ensures Same(after.tree, if Reached(patches, order, p) then first else e.tree, p)
    {
      assert Same(now.tree, if Reached(patches, order[..|order| - 1], p) then first else e.tree, p);
      if p !in patch.targets { assert Same(after.tree, now.tree, p); }
    }
  }

  lemma {:induction false} AnyOrder(d: Disk, patches: seq<Patch>, order: seq<nat>)
    requires Fresh(d) && ProperPatches(d, patches) && AllSucceed(d, patches) && Disjoint(patches)
    requires forall i :: 0 <= i < |order| ==> order[i] < |patches|
    ensures Mixed(History(d, patches), d.tree, RolledInOrder(History(d, patches), patches, order), patches, order)
  {
    hide History, Recorded, Mixed;
    var e := History(d, patches);
    if order == [] {
      MixedNone(e, d.tree, patches);
    } else {
      var n := |order| - 1;
      AnyOrder(d, patches, order[..n]);
      FirstTreeRecorded(d, patches, order[n]);
      MixedNext(e, d.tree, RolledInOrder(e, patches, order[..n]), patches, order);
    }
  }

  lemma MixedNone(e: Disk, first: Tree, patches: seq<Patch>)
    ensures Mixed(e, first, e, patches, [])
  {
  }

  lemma {:induction false} ReachedBy(patches: seq<Patch>, order: seq<nat>, p: Path, i: nat)
    requires forall j :: 0 <= j < |order| ==> order[j] < |patches|
    requires i < |order| && p in patches[order[i]].targets
    ensures Reached(patches, order, p)
  {
    if i < |order| - 1 {
      ReachedBy(patches, order[..|order| - 1], p, i);
    }
  }

  lemma {:induction false} ReachedIsTouched(patches: seq<Patch>, order: seq<nat>, p: Path)
    requires forall j :: 0 <= j < |order| ==> order[j] < |patches|
    requires Reached(patches, order, p)
    ensures Touched(patches, p)
  {
    if p in patches[order[|order| - 1]].targets {
      assert order[|order| - 1] < |patches|;
    } else {
      ReachedIsTouched(patches, order[..|order| - 1], p);
    }
  }

  /** Disjoint patches roll back in any order: once each was rolled back, at whatever
      time and even more than once, the first worktree is restored. */
  lemma AnyOrderRestores(d: Disk, patches: seq<Patch>, order: seq<nat>)
    requires Fresh(d) && ProperPatches(d, patches) && AllSucceed(d, patches) && Disjoint(patches)
    requires forall i :: 0 <= i < |order| ==> order[i] < |patches|
    requires forall k: nat :: k < |patches| ==> k in order
    ensures RolledInOrder(History(d, patches), patches, order).tree == d.tree
  {
    hide History, RolledInOrder, ProperPatches, AllSucceed, Disjoint, Reached;
    AnyOrder(d, patches, order);
    var e, r := History(d, patches), RolledInOrder(History(d, patches), patches, order);
    forall p
      ensures Same(r.tree, d.tree, p)
    {
      assert Same(r.tree, if Reached(patches, order, p) then d.tree else e.tree, p);
      if Touched(patches, p) {
        var k: nat :| k < |patches| && p in patches[k].targets;
        assert k in order;
        var i :| 0 <= i < |order| && order[i] == k;
        ReachedBy(patches, order, p, i);
      } else {
        HistoryOutside(d, patches, p);
        if Reached(patches, order, p) { ReachedIsTouched(patches, order, p); }
      }
    }
    SameTree(r.tree, d.tree);
  }
}
