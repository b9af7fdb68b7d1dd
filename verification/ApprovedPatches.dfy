/** What was approved is what is applied: in every run of executions, decisions, restarts
    and outside edits. */
module ApprovedPatches {
  import opened Plans
  import opened Hunks
  import opened Worktree
  import opened WorktreeResults
  import opened Approvals
  import opened ExecutorProtocol

  // ----- The invariant -----

  /** The parameter is the hash of a proposal with these targets and this diff. */
  ghost predicate BoundTo(parameter: Bound<Proposal>, targets: seq<Path>, diff: seq<DiffLine>) {
    parameter.Bound? && parameter.value.targets == targets && parameter.value.diff == diff
  }

  /** A request with a diff is bound to that diff and to its own targets; others are
      bound to no proposal. */
  ghost predicate BoundRequest(artifacts: seq<Artifact>, r: Request) {
    match r.operation.diffRef
    case None => r.parameter == Unbound
    case Some(ref) =>
      ref < |artifacts| && r.target.Bound? && BoundTo(r.parameter, r.operation.targets, artifacts[ref].diff)
  }

  ghost predicate AllBound(artifacts: seq<Artifact>, requests: map<Ticket, Request>) {
    forall t :: t in requests ==> BoundRequest(artifacts, requests[t])
  }

  ghost predicate WellBound(w: World) {
    Consistent(w.service) && AllBound(w.artifacts, w.service.requests)
  }

  /** Requests of other components carry no diff and no proposal hash. */
  ghost predicate Foreign(op: Op) {
    op.CreateOp? ==> op.draft.operation.diffRef == None && op.draft.parameter == Unbound
  }

  // ----- Single steps keep it -----

  lemma OpKeepsBound(artifacts: seq<Artifact>, s: Service, op: Op)
    requires Consistent(s) && AllBound(artifacts, s.requests) && Foreign(op)
    ensures Consistent(Step(s, op)) && AllBound(artifacts, Step(s, op).requests)
  {
    hide Replay;
    StepConsistent(s, op);
  }

  lemma AskKeepsBound(w: World, call: Call, p: Proposal)
    requires WellBound(w)
    ensures var asked := Ask(w, call, p);
            && WellBound(asked.world) && BoundTo(asked.parameter, p.targets, p.diff)
            && asked.world.disk == w.disk && asked.world.reports == w.reports
            && forall t :: t in w.service.requests ==>
                 t in asked.world.service.requests && asked.world.service.requests[t] == w.service.requests[t]
  {
    hide Consistent;
    var a := Artifact(call.subtask, p.diff);
    var ref := IndexOf(w.artifacts, a);
    var more := WithDiff(w.artifacts, a);
    assert more[ref] == a && forall i :: 0 <= i < |w.artifacts| ==> more[i] == w.artifacts[i];
    assert AllBound(more, w.service.requests) by {
      forall t | t in w.service.requests
        ensures BoundRequest(more, w.service.requests[t])
      {
        assert BoundRequest(w.artifacts, w.service.requests[t]);
      }
    }
    var found := LastMatch(w.service, w.service.next, call.subtask, ref, p.targets);
    if found.Some? {
      assert BoundRequest(w.artifacts, w.service.requests[found.value]);
    } else {
      CreateConsistent(w.service, PatchDraft(call, p, ref, w.disk.tree), call.now);
    }
  }

  lemma CreateConsistent(s: Service, draft: Draft, now: int)
    requires Consistent(s)
    ensures Consistent(Create(s, draft, now)) && Ticket(s.next) !in s.requests
  {
    StepConsistent(s, CreateOp(draft, now));
  }

  lemma DecideKeepsBound(w: World, t: Ticket, d: Decision, reason: string, now: int)
    requires WellBound(w)
    ensures WellBound(w.(service := Decide(w.service, t, d, reason, now).0))
  {
    OpKeepsBound(w.artifacts, w.service, DecideOp(t, d, reason, now));
  }

  // ----- One apply -----

  predicate AppliedUnder(r: Result, t: Ticket) {
    r == Implemented(t) || r == ApplyFailed(t)
  }

  /** The patch that changed the disk is the one the approved, unexpired request is bound
      to, the files held what the request is bound to, and `done` says whether all of it went through. */
  ghost predicate AsApproved(before: World, after: World, call: Call, done: bool, t: Ticket) {
    && t in after.service.requests
    && var r := after.service.requests[t];
       && r.status == Approved && !IsExpired(r, call.verifyAt) && r.parameter.Bound? && r.operation.diffRef.Some?
       && r.operation.diffRef.value < |after.artifacts|
       && r.parameter.value.diff == after.artifacts[r.operation.diffRef.value].diff
       && r.parameter.value.targets == r.operation.targets
       && r.target == Bound(Held(before.disk.tree, r.operation.targets))
       && var patch := Patch(r.operation.targets, r.parameter.value.diff, t);
          after.disk == Applied(before.disk, patch, call.faults) && done == Succeeds(before.disk, patch, call.faults)
  }

  /** What a step promises: the invariant stays, and the disk is left alone or patched as approved. */
  ghost predicate Faithful(before: World, after: World, call: Call, r: Result) {
    && WellBound(after)
    && (forall t :: AppliedUnder(r, t) ==> AsApproved(before, after, call, r.Implemented?, t))
    && (r.Implemented? || r.ApplyFailed? || after.disk == before.disk)
  }

  lemma ExecuteFaithful(w: World, call: Call, p: Proposal, t: Ticket, parameter: Bound<Proposal>)
    requires WellBound(w) && t in w.service.requests && BoundTo(parameter, p.targets, p.diff)
    ensures Faithful(w, Execute(w, call, p, t, parameter).0, call, Execute(w, call, p, t, parameter).1)
  {
    hide Consistent, Applied, Succeeds, Held;
    var r := w.service.requests[t];
    var claim := Claim(parameter, Bound(Held(w.disk.tree, p.targets)), Some(r.operation));
    OpKeepsBound(w.artifacts, w.service, VerifyOp(t, claim, call.verifyAt));
    assert BoundRequest(w.artifacts, r);
    var v := Verify(w.service, t, claim, call.verifyAt);
    if v.1 == Fine {
      assert v.0 == w.service && r.parameter == parameter;
    }
  }

  lemma ResumeFaithful(w: World, call: Call, p: Proposal, asked: Ticket, parameter: Bound<Proposal>, payload: Payload)
    requires WellBound(w) && asked in w.service.requests && BoundTo(parameter, p.targets, p.diff)
    ensures var done := Resume(w, call, p, asked, parameter, payload); Faithful(w, done.0, call, done.1)
  {
    hide Execute, WellBound, Decide;
    DecideKeepsBound(w, asked, Cancel, "superseded by user decision", call.now);
    if payload.ticket in w.service.requests {
      ExecuteFaithful(w, call, p, payload.ticket, parameter);
    }
  }

  lemma FaithfulFrom(w: World, start: World, after: World, call: Call, r: Result)
    requires Faithful(w, after, call, r) && start.disk == w.disk
    ensures Faithful(start, after, call, r)
  {
    forall t | AppliedUnder(r, t)
      ensures AsApproved(start, after, call, r.Implemented?, t)
    {
      assert AsApproved(w, after, call, r.Implemented?, t);
    }
  }

  /** What was approved is what is applied: an execution changes the disk only by applying
      exactly the diff and targets bound to an approved, unexpired request, to files that
      hold exactly what the request is bound to. */
  lemma ApprovedIsApplied(w: World, call: Call)
    requires WellBound(w)
    ensures var done := RunNode(w, call); Faithful(w, done.0, call, done.1)
  {
    hide Faithful, WellBound, Resume, Decide, Ask;
    if call.proposal.None? || LastReusable(w, call.subtask, |w.reports|).Some? {
      Untouched(w, w, call, RunNode(w, call).1);
    } else {
      var p := call.proposal.value;
      var asked := Ask(w, call, p);
      AskKeepsBound(w, call, p);
      var decided := asked.world.(service := Decide(asked.world.service, asked.ticket, Approve, "policy", call.now).0);
      DecideKeepsBound(asked.world, asked.ticket, Approve, "policy", call.now);
      Untouched(w, decided, call, Raised);
      Untouched(w, asked.world, call, Paused(asked.ticket));
      if call.automatic {
        FinishFaithful(w, decided, call, p, asked.ticket, asked.parameter, Payload(asked.ticket, true));
      } else if call.payload.Some? {
        FinishFaithful(w, asked.world, call, p, asked.ticket, asked.parameter, call.payload.value);
      }
    }
  }

  lemma Untouched(start: World, after: World, call: Call, r: Result)
    requires WellBound(after) && after.disk == start.disk && !r.Implemented? && !r.ApplyFailed?
    ensures Faithful(start, after, call, r)
  {
  }

  lemma FinishFaithful(start: World, w: World, call: Call, p: Proposal, asked: Ticket, parameter: Bound<Proposal>,
                       payload: Payload)
    requires WellBound(w) && asked in w.service.requests && BoundTo(parameter, p.targets, p.diff)
        && start.disk == w.disk
    ensures var done := Resume(w, call, p, asked, parameter, payload); Faithful(start, done.0, call, done.1)
  {
    hide Resume, Faithful;
    var done := Resume(w, call, p, asked, parameter, payload);
    ResumeFaithful(w, call, p, asked, parameter, payload);
    FaithfulFrom(w, start, done.0, call, done.1);
  }

  // ----- Runs -----

  /** An execution, an operation of another component or the user on the service, or an
      edit of the worktree from outside (a rollback is one). */
  datatype Event = Execution(call: Call) | ServiceOp(op: Op) | Edit(tree: Tree)

  ghost predicate Allowed(events: seq<Event>) {
    forall i :: 0 <= i < |events| && events[i].ServiceOp? ==> Foreign(events[i].op)
  }

  ghost function Next(w: World, e: Event): World {
    match e
    case Execution(call) => RunNode(w, call).0
    case ServiceOp(op) => w.(service := Step(w.service, op))
    case Edit(tree) => w.(disk := w.disk.(tree := tree))
  }

  ghost function After(w: World, events: seq<Event>): World {
    if events == [] then w else Next(After(w, events[..|events| - 1]), events[|events| - 1])
  }

  lemma {:induction false} RunStaysBound(w: World, events: seq<Event>)
    requires WellBound(w) && Allowed(events)
    ensures WellBound(After(w, events))
  {
    if events != [] {
      hide RunNode, Step;
      var n := |events| - 1;
      RunStaysBound(w, events[..n]);
      var m := After(w, events[..n]);
      match events[n]
      case Execution(call) => ApprovedIsApplied(m, call);
      case ServiceOp(op) => OpKeepsBound(m.artifacts, m.service, op);
      case Edit(tree) =>
    }
  }

  /** No step changes what an existing request is bound to. */
  ghost predicate BindingsKept(a: Service, b: Service) {
    forall t :: t in a.requests ==> t in b.requests && SameBinding(a.requests[t], b.requests[t])
  }

  lemma OpKeepsBindings(s: Service, op: Op)
    requires Consistent(s)
    ensures BindingsKept(s, Step(s, op))
  {
    forall t | t in s.requests
      ensures t in Step(s, op).requests && SameBinding(s.requests[t], Step(s, op).requests[t])
    {
      StepLater(s, op, t);
    }
  }

  lemma BindingsOver(a: Service, b: Service, c: Service)
    requires BindingsKept(a, b) && BindingsKept(b, c)
    ensures BindingsKept(a, c)
  {
  }

  lemma ResumeKeepsBindings(w: World, call: Call, p: Proposal, asked: Ticket, parameter: Bound<Proposal>,
                            payload: Payload)
    requires Consistent(w.service) && asked in w.service.requests
    ensures BindingsKept(w.service, Resume(w, call, p, asked, parameter, payload).0.service)
  {
    hide Consistent, Decide, Verify, BindingsKept, Applied, Succeeds;
    var s := w.service;
    KeptBySelf(s);
    OpKeepsBindings(s, DecideOp(asked, Cancel, "superseded by user decision", call.now));
    if payload.ticket in s.requests {
      var claim := Claim(parameter, Bound(Held(w.disk.tree, p.targets)), Some(s.requests[payload.ticket].operation));
      OpKeepsBindings(s, VerifyOp(payload.ticket, claim, call.verifyAt));
    }
  }

  lemma KeptBySelf(s: Service)
    ensures BindingsKept(s, s)
  {
  }

  lemma RunNodeKeepsBindings(w: World, call: Call)
    requires WellBound(w)
    ensures BindingsKept(w.service, RunNode(w, call).0.service)
  {
    hide Consistent, Decide, Resume, Ask, BindingsKept, AllBound;
    KeptBySelf(w.service);
    if call.proposal.Some? {
      var p := call.proposal.value;
      var asked := Ask(w, call, p);
      AskKeepsBound(w, call, p);
      AskKeepsBindings(w, asked.world);
      var approve := DecideOp(asked.ticket, Approve, "policy", call.now);
      OpKeepsBindings(asked.world.service, approve);
      DecideKeepsBound(asked.world, asked.ticket, Approve, "policy", call.now);
      var decided := asked.world.(service := Decide(asked.world.service, asked.ticket, Approve, "policy", call.now).0);
      BindingsOver(w.service, asked.world.service, decided.service);
      FinishBindings(w.service, decided, call, p, asked.ticket, asked.parameter, Payload(asked.ticket, true));
      if call.payload.Some? {
        FinishBindings(w.service, asked.world, call, p, asked.ticket, asked.parameter, call.payload.value);
      }
    }
  }

  lemma AskKeepsBindings(w: World, asked: World)
    requires forall t :: t in w.service.requests ==>
          t in asked.service.requests && asked.service.requests[t] == w.service.requests[t]
    ensures BindingsKept(w.service, asked.service)
  {
  }

  lemma FinishBindings(s: Service, w: World, call: Call, p: Proposal, asked: Ticket, parameter: Bound<Proposal>,
                       payload: Payload)
    requires Consistent(w.service) && asked in w.service.requests && BindingsKept(s, w.service)
    ensures BindingsKept(s, Resume(w, call, p, asked, parameter, payload).0.service)
  {
    hide Resume, BindingsKept;
    ResumeKeepsBindings(w, call, p, asked, parameter, payload);
    BindingsOver(s, w.service, Resume(w, call, p, asked, parameter, payload).0.service);
  }

  lemma {:induction false} RunKeepsBindings(w: World, events: seq<Event>, from: nat)
    requires WellBound(w) && Allowed(events) && from <= |events|
    ensures BindingsKept(After(w, events[..from]).service, After(w, events).service)
    decreases |events|
  {
    hide RunNode, Step, WellBound, BindingsKept;
    if from == |events| {
      assert events[..from] == events;
      KeptBySelf(After(w, events).service);
    } else {
      var n := |events| - 1;
      var front, m := events[..n], After(w, events[..n]);
      assert front[..from] == events[..from];
      RunKeepsBindings(w, front, from);
      RunStaysBound(w, front);
      NextKeepsBindings(m, events[n]);
      BindingsOver(After(w, events[..from]).service, m.service, After(w, events).service);
    }
  }

  lemma NextKeepsBindings(w: World, e: Event)
    requires WellBound(w)
    ensures BindingsKept(w.service, Next(w, e).service)
  {
    hide RunNode, Step, BindingsKept;
    match e
    case Execution(call) => RunNodeKeepsBindings(w, call);
    case ServiceOp(op) => OpKeepsBindings(w.service, op);
    case Edit(tree) => KeptBySelf(w.service);
  }

  /** Event `i` of the run applies a patch under the ticket. */
  ghost predicate AppliedAt(w: World, events: seq<Event>, i: nat, t: Ticket)
    requires i < |events|
  {
    events[i].Execution? && AppliedUnder(RunNode(After(w, events[..i]), events[i].call).1, t)
  }

  /** Event `i` applies the patch the ticket is bound to at the end of the run. */
  lemma AppliedAsBound(w: World, events: seq<Event>, i: nat, t: Ticket)
    requires WellBound(w) && Allowed(events) && i < |events| && AppliedAt(w, events, i, t)
    ensures var end, before, after := After(w, events), After(w, events[..i]), After(w, events[..i + 1]);
            && t in end.service.requests && end.service.requests[t].parameter.Bound?
            && var r := end.service.requests[t];
               && r.target == Bound(Held(before.disk.tree, r.operation.targets))
               && after.disk == Applied(before.disk, Patch(r.operation.targets, r.parameter.value.diff, t),
                                        events[i].call.faults)
  {
    hide RunNode;
    var before := After(w, events[..i]);
    assert Allowed(events[..i]);
    RunStaysBound(w, events[..i]);
    ApprovedIsApplied(before, events[i].call);
    assert events[..i + 1][..i] == events[..i];
    assert After(w, events[..i + 1]) == RunNode(before, events[i].call).0;
    RunKeepsBindings(w, events, i + 1);
  }

  /** Two applies under one ticket, anywhere in a run: the same patch, and the targets hold
      the same contents both times.  So an approval is good for a second effective apply
      only once the targets hold their old contents again. */
  lemma SecondApplyNeedsOldContents(w: World, events: seq<Event>, i: nat, j: nat, t: Ticket)
    requires WellBound(w) && Allowed(events) && i < j < |events| && AppliedAt(w, events, i, t)
        && AppliedAt(w, events, j, t)
    ensures var end := After(w, events);
            && t in end.service.requests
            && var targets := end.service.requests[t].operation.targets;
               Held(After(w, events[..i]).disk.tree, targets) == Held(After(w, events[..j]).disk.tree, targets)
  {
    AppliedAsBound(w, events, i, t);
    AppliedAsBound(w, events, j, t);
  }

  /** Right after an apply under a ticket that changed any of its targets, the same ticket
      is refused. */
  lemma EffectiveApplyIsFinal(w: World, call: Call, again: Call, t: Ticket)
    requires WellBound(w) && AppliedUnder(RunNode(w, call).1, t)
    requires var after := RunNode(w, call).0;
             t in after.service.requests
             && var targets := after.service.requests[t].operation.targets;
                Held(after.disk.tree, targets) != Held(w.disk.tree, targets)
    ensures !AppliedUnder(RunNode(RunNode(w, call).0, again).1, t)
  {
    hide RunNode, Held;
    var events := [Execution(call), Execution(again)];
    assert events[..1] == [Execution(call)] && events[..0] == [] && [Execution(call)][..0] == [];
    assert After(w, events[..0]) == w;
    assert After(w, events[..1]) == RunNode(w, call).0;
    if AppliedUnder(RunNode(RunNode(w, call).0, again).1, t) {
      assert AppliedAt(w, events, 0, t) && AppliedAt(w, events, 1, t);
      SecondApplyNeedsOldContents(w, events, 0, 1, t);
      ApprovedIsApplied(w, call);
      RunKeepsBindings(w, events, 1);
    }
  }

  /** A failed apply that leaves anything behind leaves a file it created, and the same
      approval is then refused: it cannot be retried over its own residue. */
  lemma FailedApplyBlocksRetry(w: World, call: Call, again: Call, t: Ticket)
    requires WellBound(w) && RunNode(w, call).1 == ApplyFailed(t)
    requires RunNode(w, call).0.disk.tree != w.disk.tree
    requires Fresh(w.disk) && EntriesOf(w.disk.manifest, t) == []
    requires var after := RunNode(w, call).0;
             t in after.service.requests && Distinct(after.service.requests[t].operation.targets)
    ensures !AppliedUnder(RunNode(RunNode(w, call).0, again).1, t)
  {
    hide RunNode, WellBound;
    var after := RunNode(w, call).0;
    ApprovedIsApplied(w, call);
    assert AppliedUnder(ApplyFailed(t), t);
    var r := after.service.requests[t];
    var patch := Patch(r.operation.targets, r.parameter.value.diff, t);
    assert AsApproved(w, after, call, false, t);
    ResidueIsHeld(w.disk, patch, call.faults);
    EffectiveApplyIsFinal(w, call, again, t);
  }

  /** A failed apply that changed the tree changed what its targets hold. */
  lemma ResidueIsHeld(d: Disk, patch: Patch, faults: Faults)
    requires Fresh(d) && Distinct(patch.targets) && EntriesOf(d.manifest, patch.ticket) == []
    requires !Succeeds(d, patch, faults) && Applied(d, patch, faults).tree != d.tree
    ensures Held(Applied(d, patch, faults).tree, patch.targets) != Held(d.tree, patch.targets)
  {
    FailedApplyLeavesOnlyCreated(d, patch, faults);
    var after := Applied(d, patch, faults);
    if forall p :: p in after.tree ==> p in d.tree {
      forall p
        ensures Same(after.tree, d.tree, p)
      {
      }
      SameTree(after.tree, d.tree);
    } else {
      var p :| p in after.tree && p !in d.tree;
      CreatedIsTarget(d, patch, faults, p);
      assert p in Held(after.tree, patch.targets) && p !in Held(d.tree, patch.targets);
    }
  }

  lemma CreatedIsTarget(d: Disk, patch: Patch, faults: Faults, p: Path)
    requires Fresh(d) && Distinct(patch.targets) && EntriesOf(d.manifest, patch.ticket) == []
    requires !Succeeds(d, patch, faults) && p in Applied(d, patch, faults).tree && p !in d.tree
    ensures p in patch.targets
  {
    var a := Attempted(d, patch, faults, |patch.targets|);
    var m := AttemptMidway(d, patch, faults, |patch.targets|);
    PutBackMidway(d, a, patch, m);
    assert !Same(Applied(d, patch, faults).tree, d.tree, p);
    assert p in patch.targets[..m];
  }

  // ----- No apply without a decision -----

  predicate IsApproved(s: Service, t: Ticket) {
    t in s.requests && s.requests[t].status == Approved
  }

  /** The user approved the ticket, or the permission policy did: an automatic execution
      that asks for this very ticket. */
  predicate Approves(w: World, e: Event, t: Ticket) {
    || (e.ServiceOp? && e.op.DecideOp? && e.op.ticket == t && e.op.decision == Approve)
    || (e.Execution? && e.call.automatic && e.call.proposal.Some?
        && LastReusable(w, e.call.subtask, |w.reports|).None? && Ask(w, e.call, e.call.proposal.value).ticket == t)
  }

  lemma OpApproves(s: Service, op: Op, t: Ticket)
    requires Consistent(s) && IsApproved(Step(s, op), t)
    ensures IsApproved(s, t) || (op.DecideOp? && op.ticket == t && op.decision == Approve)
  {
    if !IsApproved(s, t) {
      ApprovedHere(s, op, t);
    }
  }

  lemma ResumeApprovesNothing(w: World, call: Call, p: Proposal, asked: Ticket, parameter: Bound<Proposal>,
                              payload: Payload, t: Ticket)
    requires Consistent(w.service) && asked in w.service.requests
    requires IsApproved(Resume(w, call, p, asked, parameter, payload).0.service, t)
    ensures IsApproved(w.service, t)
  {
    hide Consistent, Decide, Verify, IsApproved, Applied, Succeeds, Held;
    var s, cancel := w.service, DecideOp(asked, Cancel, "superseded by user decision", call.now);
    if IsApproved(Step(s, cancel), t) {
      OpApproves(s, cancel, t);
    }
    if payload.ticket in s.requests {
      var verify := VerifyOp(payload.ticket, Claim(parameter, Bound(Held(w.disk.tree, p.targets)),
                                                   Some(s.requests[payload.ticket].operation)), call.verifyAt);
      if IsApproved(Step(s, verify), t) {
        OpApproves(s, verify, t);
      }
    }
  }

  lemma AskApprovesNothing(w: World, call: Call, p: Proposal, t: Ticket)
    requires WellBound(w) && IsApproved(Ask(w, call, p).world.service, t)
    ensures IsApproved(w.service, t)
  {
    hide LastMatch;
  }

  lemma NextApproves(w: World, e: Event, t: Ticket)
    requires WellBound(w) && IsApproved(Next(w, e).service, t)
    ensures IsApproved(w.service, t) || Approves(w, e, t)
  {
    match e
    case Execution(call) => RunApproves(w, call, t);
    case ServiceOp(op) => OpApproves(w.service, op, t);
    case Edit(tree) =>
  }

  /** Only the automatic decision of an execution approves, and only the ticket it asked for. */
  lemma RunApproves(w: World, call: Call, t: Ticket)
    requires WellBound(w) && IsApproved(RunNode(w, call).0.service, t)
    ensures IsApproved(w.service, t) || Approves(w, Execution(call), t)
  {
    hide WellBound, Resume, Ask, IsApproved, Decide;
    if call.proposal.Some? && LastReusable(w, call.subtask, |w.reports|).None? {
      var p := call.proposal.value;
      var asked := Ask(w, call, p);
      var approve := DecideOp(asked.ticket, Approve, "policy", call.now);
      var decided := asked.world.(service := Step(asked.world.service, approve));
      AskKeepsBound(w, call, p);
      BoundIsConsistent(asked.world);
      if call.automatic {
        DecideKeepsBound(asked.world, asked.ticket, Approve, "policy", call.now);
        BoundIsConsistent(decided);
        FinishApproves(decided, call, p, asked.ticket, asked.parameter, Payload(asked.ticket, true), t);
        if IsApproved(decided.service, t) { OpApproves(asked.world.service, approve, t); }
      } else if call.payload.Some? {
        FinishApproves(asked.world, call, p, asked.ticket, asked.parameter, call.payload.value, t);
      }
      if IsApproved(asked.world.service, t) { AskApprovesNothing(w, call, p, t); }
    }
  }

  lemma FinishApproves(w: World, call: Call, p: Proposal, asked: Ticket, parameter: Bound<Proposal>, payload: Payload,
                       t: Ticket)
    requires Consistent(w.service) && asked in w.service.requests
    ensures IsApproved(Resume(w, call, p, asked, parameter, payload).0.service, t) ==> IsApproved(w.service, t)
  {
    hide Resume, IsApproved, Consistent;
    if IsApproved(Resume(w, call, p, asked, parameter, payload).0.service, t) {
      ResumeApprovesNothing(w, call, p, asked, parameter, payload, t);
    }
  }

  lemma BoundIsConsistent(w: World)
    requires WellBound(w)
    ensures Consistent(w.service)
  {
  }

  lemma {:induction false} ApprovedByEvent(w: World, events: seq<Event>, t: Ticket) returns (j: nat)
    requires WellBound(w) && Allowed(events) && w.service.requests == map[] && IsApproved(After(w, events).service, t)
    ensures j < |events| && Approves(After(w, events[..j]), events[j], t)
  {
    hide WellBound, Next, Approves;
    var n := |events| - 1;
    RunStaysBound(w, events[..n]);
    NextApproves(After(w, events[..n]), events[n], t);
    if Approves(After(w, events[..n]), events[n], t) {
      j := n;
    } else {
      j := ApprovedByEvent(w, events[..n], t);
      assert events[..n][..j] == events[..j];
    }
  }

  /** In a run that starts without requests, a patch is applied under a ticket only if
      before, or in the same execution, the user approved that ticket or the permission
      policy approved the request with that ticket. */
  lemma AppliedOnlyAfterApproval(w: World, events: seq<Event>, i: nat, t: Ticket) returns (j: nat)
    requires WellBound(w) && Allowed(events) && w.service.requests == map[] && i < |events|
        && AppliedAt(w, events, i, t)
    ensures j <= i && Approves(After(w, events[..j]), events[j], t)
  {
    hide RunNode, WellBound, Approves;
    var before := After(w, events[..i]);
    assert Allowed(events[..i]) && Allowed(events[..i + 1]);
    RunStaysBound(w, events[..i]);
    ApprovedIsApplied(before, events[i].call);
    assert events[..i + 1][..i] == events[..i];
    assert After(w, events[..i + 1]) == RunNode(before, events[i].call).0;
    j := ApprovedByEvent(w, events[..i + 1], t);
    assert events[..i + 1][..j] == events[..j];
  }
}
