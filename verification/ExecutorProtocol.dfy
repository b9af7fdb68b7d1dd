/** The executor's patch protocol: propose, save the diff, find or create an approval,
    pause for the decision, verify, apply. */
module ExecutorProtocol {
  import opened Plans
  import opened Hunks
  import opened Worktree
  import opened Approvals

  /** A saved diff; its identifier is its position. */
  datatype Artifact = Artifact(subtask: Id, diff: seq<DiffLine>)

  datatype Report = Report(subtask: Id, ticket: Ticket, passed: bool)

  datatype World = World(service: Service, disk: Disk, artifacts: seq<Artifact>, reports: seq<Report>)

  /** The user's decision that a paused run is resumed with. */
  datatype Payload = Payload(ticket: Ticket, approve: bool)

  /** One execution of the node: a proposal that passed validation or none, the
      permission policy's answer, the resume value, the clock at creation and decision and
      at verification, faults of the disk, and the result of the tests if there are any. */
  datatype Call = Call(subtask: Id, proposal: Option<Proposal>, summary: string, automatic: bool,
                       payload: Option<Payload>, now: int, verifyAt: int, faults: Faults,
                       tests: Option<bool>)

  datatype Result =
    | NoProposal
    | Replayed(ticket: Ticket)
    | Raised
    | Paused(ticket: Ticket)
    | Mismatch
    | RejectedByUser(ticket: Ticket)
    | NotVerified(ticket: Ticket)
    | ApplyFailed(ticket: Ticket)
    | Implemented(ticket: Ticket)

  // ----- The pieces -----

  /** An approved patch of this subtask whose tests passed. */
  predicate Reusable(w: World, report: Report, subtask: Id) {
    && report.subtask == subtask && report.passed
    && report.ticket in w.service.requests
    && var r := w.service.requests[report.ticket];
       r.status == Approved && r.operation.diffRef.Some? && r.operation.diffRef.value < |w.artifacts|
  }

  /** The latest such report. */
  function LastReusable(w: World, subtask: Id, n: nat): Option<Ticket>
    requires n <= |w.reports|
  {
    if n == 0 then None
    else if Reusable(w, w.reports[n - 1], subtask) then Some(w.reports[n - 1].ticket)
    else LastReusable(w, subtask, n - 1)
  }

  /** The position of a saved diff with this content, or the number of artifacts. */
  function IndexOf(artifacts: seq<Artifact>, a: Artifact): (i: nat)
    ensures i <= |artifacts| && (i < |artifacts| ==> artifacts[i] == a)
    ensures a in artifacts <==> i < |artifacts|
  {
    if artifacts == [] then 0
    else if artifacts[0] == a then 0
    else 1 + IndexOf(artifacts[1..], a)
  }

  /** Saving with deduplication by content. */
  function WithDiff(artifacts: seq<Artifact>, a: Artifact): seq<Artifact> {
    if IndexOf(artifacts, a) < |artifacts| then artifacts else artifacts + [a]
  }

  /** The contents of the targets that exist. */
  function Held(tree: Tree, targets: seq<Path>): Tree {
    map p | p in tree && p in targets :: tree[p]
  }

  /** A request that a replayed execution may take up again. */
  predicate Matches(r: Request, subtask: Id, ref: nat, targets: seq<Path>) {
    && r.subtask == subtask && (r.status == Pending || r.status == Approved)
    && r.operation.diffRef == Some(ref) && r.operation.targets == targets
  }

  /** The last matching request in the order of their times, then of their creation. */
  function LastMatch(s: Service, n: nat, subtask: Id, ref: nat, targets: seq<Path>): (r: Option<Ticket>)
    ensures r.Some? ==> r.value in s.requests && Matches(s.requests[r.value], subtask, ref, targets)
  {
    if n == 0 then None
    else
      var best, t := LastMatch(s, n - 1, subtask, ref, targets), Ticket(n - 1);
      if t in s.requests && Matches(s.requests[t], subtask, ref, targets)
         && (best.None? || s.requests[best.value].requestedAt <= s.requests[t].requestedAt) then Some(t)
      else best
  }

  /** What the executor asks approval for. */
  function PatchDraft(call: Call, p: Proposal, ref: nat, tree: Tree): Draft {
    Draft(call.subtask, Operation("apply_patch", "sandbox_apply_patch", call.summary, p.targets, [], Some(ref)),
          Bound(p), Bound(Held(tree, p.targets)))
  }

  // ----- One execution -----

  /** The diff is saved and a request found or created. */
  datatype Asked = Asked(world: World, ticket: Ticket, parameter: Bound<Proposal>)

  function Ask(w: World, call: Call, p: Proposal): (r: Asked)
    ensures r.ticket in r.world.service.requests
  {
    var a := Artifact(call.subtask, p.diff);
    var ref := IndexOf(w.artifacts, a);
    var saved := w.(artifacts := WithDiff(w.artifacts, a));
    match LastMatch(w.service, w.service.next, call.subtask, ref, p.targets)
    case Some(t) => Asked(saved, t, w.service.requests[t].parameter)
    case None =>
      Asked(saved.(service := Create(w.service, PatchDraft(call, p, ref, w.disk.tree), call.now)),
            Ticket(w.service.next), Bound(p))
  }

  /** A decision is at hand: verify the request it names, and apply. */
  ghost function Execute(w: World, call: Call, p: Proposal, ticket: Ticket, parameter: Bound<Proposal>): (World, Result)
    requires ticket in w.service.requests
  {
    var claim := Claim(parameter, Bound(Held(w.disk.tree, p.targets)), Some(w.service.requests[ticket].operation));
    var (service, outcome) := Verify(w.service, ticket, claim, call.verifyAt);
    var verified := w.(service := service);
    if outcome != Fine then (verified, NotVerified(ticket))
    else ApplyPatch(verified, call, p, ticket)
  }

  ghost function ApplyPatch(w: World, call: Call, p: Proposal, ticket: Ticket): (World, Result) {
    var patch := Patch(p.targets, p.diff, ticket);
    var patched := w.(disk := Applied(w.disk, patch, call.faults));
    if !Succeeds(w.disk, patch, call.faults) then (patched, ApplyFailed(ticket))
    else if call.tests.None? then (patched, Implemented(ticket))
    else (patched.(reports := w.reports + [Report(call.subtask, ticket, call.tests.value)]), Implemented(ticket))
  }

  /** The payload decides which request is meant; a request created in vain is cancelled. */
  ghost function Resume(w: World, call: Call, p: Proposal, asked: Ticket, parameter: Bound<Proposal>,
                        payload: Payload): (World, Result)
    requires asked in w.service.requests
  {
    if payload.ticket != asked && payload.ticket !in w.service.requests then (w, Mismatch)
    else if !payload.approve then
      (if payload.ticket == asked then w
       else w.(service := Decide(w.service, asked, Cancel, "superseded by user decision", call.now).0),
       RejectedByUser(payload.ticket))
    else Execute(w, call, p, payload.ticket, parameter)
  }

  ghost function RunNode(w: World, call: Call): (World, Result) {
    var reuse := LastReusable(w, call.subtask, |w.reports|);
    if reuse.Some? then (w, Replayed(reuse.value))
    else if call.proposal.None? then (w, NoProposal)
    else
      var p := call.proposal.value;
      var asked := Ask(w, call, p);
      if call.automatic then
        var (service, outcome) := Decide(asked.world.service, asked.ticket, Approve, "policy", call.now);
        var decided := asked.world.(service := service);
        if outcome != Fine then (decided, Raised)
        else Resume(decided, call, p, asked.ticket, asked.parameter, Payload(asked.ticket, true))
      else if call.payload.None? then (asked.world, Paused(asked.ticket))
      else Resume(asked.world, call, p, asked.ticket, asked.parameter, call.payload.value)
  }

  lemma AskFiled(w: World, call: Call)
    requires Filed(w.service)
    ensures call.proposal.Some? ==>
              var asked := Ask(w, call, call.proposal.value);
              && Filed(asked.world.service)
              && Filed(Decide(asked.world.service, asked.ticket, Approve, "policy", call.now).0)
  {
  }

  // ----- The node as the source runs it -----

  class Executor {
    const service: ApprovalService
    const store: Store
    var artifacts: seq<Artifact>
    var reports: seq<Report>

    ghost function State(): World reads this, service, store {
      World(service.State(), store.State(), artifacts, reports)
    }

    constructor (service: ApprovalService, store: Store)
      ensures this.service == service && this.store == store && artifacts == [] && reports == []
    {
      this.service, this.store, artifacts, reports := service, store, [], [];
    }

    method FindReport(subtask: Id) returns (r: Option<Ticket>)
      ensures r == LastReusable(State(), subtask, |reports|)
    {
      var n := |reports|;
      while n > 0
        invariant 0 <= n <= |reports|
        invariant LastReusable(State(), subtask, |reports|) == LastReusable(State(), subtask, n)
      {
        n := n - 1;
        var report := reports[n];
        if report.subtask == subtask && report.passed && report.ticket in service.requests {
          var request := service.requests[report.ticket];
          if request.status == Approved && request.operation.diffRef.Some?
              && request.operation.diffRef.value < |artifacts| {
            return Some(report.ticket);
          }
        }
      }
      r := None;
    }

    /** `ArtifactWriter.write` with deduplication. */
    method SaveDiff(a: Artifact) returns (ref: nat)
      modifies `artifacts
      ensures ref == IndexOf(old(artifacts), a) && artifacts == WithDiff(old(artifacts), a)
    {
      ref := 0;
      while ref < |artifacts|
        invariant ref <= |artifacts| && artifacts == old(artifacts)
        invariant IndexOf(artifacts, a) == ref + IndexOf(artifacts[ref..], a)
      {
        if artifacts[ref] == a { return ref; }
        assert artifacts[ref..][1..] == artifacts[ref + 1..];
        ref := ref + 1;
      }
      artifacts := artifacts + [a];
    }

    method FindRequest(subtask: Id, ref: nat, targets: seq<Path>) returns (r: Option<Ticket>)
      ensures r == LastMatch(service.State(), service.next, subtask, ref, targets)
    {
      r := None;
      for n := 0 to service.next
        invariant r == LastMatch(service.State(), n, subtask, ref, targets)
      {
        var t := Ticket(n);
        if t in service.requests && Matches(service.requests[t], subtask, ref, targets) {
          if r.None? || service.requests[r.value].requestedAt <= service.requests[t].requestedAt {
            r := Some(t);
          }
        }
      }
    }

    method AskApproval(call: Call, p: Proposal) returns (ticket: Ticket, parameter: Bound<Proposal>)
      modifies this, service
      ensures Asked(State(), ticket, parameter) == Ask(old(State()), call, p)
    {
      var ref := SaveDiff(Artifact(call.subtask, p.diff));
      var found := FindRequest(call.subtask, ref, p.targets);
      if found.Some? {
        return found.value, service.requests[found.value].parameter;
      }
      parameter := Bound(p);
      ticket := service.CreateRequest(PatchDraft(call, p, ref, store.tree), call.now);
    }

    method ExecutePatch(call: Call, p: Proposal, ticket: Ticket, parameter: Bound<Proposal>) returns (r: Result)
      requires Filed(service.State()) && ticket in service.requests
      modifies this, service, store
      ensures (State(), r) == Execute(old(State()), call, p, ticket, parameter)
    {
      var claim := Claim(parameter, Bound(Held(store.tree, p.targets)), Some(service.requests[ticket].operation));
      var outcome := service.VerifyExecution(ticket, claim, call.verifyAt);
      if outcome != Fine { return NotVerified(ticket); }
      var ok := store.Apply(Patch(p.targets, p.diff, ticket), call.faults);
      if !ok { return ApplyFailed(ticket); }
      if call.tests.Some? {
        reports := reports + [Report(call.subtask, ticket, call.tests.value)];
      }
      r := Implemented(ticket);
    }

    method ResumeWith(call: Call, p: Proposal, asked: Ticket, parameter: Bound<Proposal>, payload: Payload)
      returns (r: Result)
      requires Filed(service.State()) && asked in service.requests
      modifies this, service, store
      ensures (State(), r) == Resume(old(State()), call, p, asked, parameter, payload)
    {
      if payload.ticket != asked && payload.ticket !in service.requests { return Mismatch; }
      if !payload.approve {
        if payload.ticket != asked {
          var _ := service.CancelRequest(asked, "superseded by user decision", call.now);
        }
        return RejectedByUser(payload.ticket);
      }
      r := ExecutePatch(call, p, payload.ticket, parameter);
    }

    /** `DeterministicFakeExecutor.run`. */
    method RunOnce(call: Call) returns (r: Result)
      requires Filed(service.State())
      modifies this, service, store
      ensures (State(), r) == RunNode(old(State()), call)
    {
      hide Ask, Decide, Resume, LastReusable, Filed;
      AskFiled(State(), call);
      var reuse := FindReport(call.subtask);
      if reuse.Some? { return Replayed(reuse.value); }
      if call.proposal.None? { return NoProposal; }
      var p := call.proposal.value;
      var ticket, parameter := AskApproval(call, p);
      var payload := call.payload;
      if call.automatic {
        var outcome := service.DecideRequest(ticket, Approve, "policy", call.now);
        if outcome != Fine { return Raised; }
        payload := Some(Payload(ticket, true));
      }
      if payload.None? { return Paused(ticket); }
      r := ResumeWith(call, p, ticket, parameter, payload.value);
    }
  }
}
