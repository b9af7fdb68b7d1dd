/** What an execution of the executor answers: approval leads to the patch, rejection to
    nothing, a pause to a request that can be decided, and a replay to that same request. */
module ExecutorOutcomes {
  import opened Plans
  import opened Hunks
  import opened Worktree
  import opened WorktreeResults
  import opened Approvals
  import opened ExecutorProtocol

  // ----- What is asked for -----

  /** The bound contents are those the targets hold now exactly if no target differs. */
  lemma HeldIsTheTargets(a: Tree, b: Tree, targets: seq<Path>)
    ensures Held(a, targets) == Held(b, targets) <==> SameOn(a, b, targets)
  {
    forall p | p in targets
      ensures p in Held(a, targets) <==> p in a
      ensures p in Held(b, targets) <==> p in b
    {
    }
    if Held(a, targets) == Held(b, targets) {
      forall p | p in targets
        ensures Same(a, b, p)
      {
        assert p in Held(a, targets) <==> p in Held(b, targets);
        assert p in a ==> Held(a, targets)[p] == a[p] && Held(b, targets)[p] == b[p];
      }
    }
  }

  /** Of the decidable requests with this subtask, diff and targets the last one asked for
      is taken up again, the later issued one of two at the same time; none is taken up
      only if there is none. */
  lemma {:induction false} LastMatchIsLatest(s: Service, n: nat, subtask: Id, ref: nat, targets: seq<Path>)
    ensures var found := LastMatch(s, n, subtask, ref, targets);
            forall k: nat :: k < n && Ticket(k) in s.requests && Again(s.requests[Ticket(k)], subtask, ref, targets) ==>
              && found.Some?
              && s.requests[Ticket(k)].requestedAt <= s.requests[found.value].requestedAt
              && (s.requests[Ticket(k)].requestedAt == s.requests[found.value].requestedAt ==> k <= found.value.number)
    ensures var found := LastMatch(s, n, subtask, ref, targets); found.Some? ==> found.value.number < n
  {
    if n > 0 {
      LastMatchIsLatest(s, n - 1, subtask, ref, targets);
    }
  }

  /** A request that can be decided, for the same subtask, diff and targets. */
  predicate Again(r: Request, subtask: Id, ref: nat, targets: seq<Path>) {
    && r.subtask == subtask && r.operation.diffRef == Some(ref) && r.operation.targets == targets
    && r.status in {Pending, Approved}
  }

  /** Nothing else decides which request is taken up: approving one does not. */
  lemma {:induction false} LastMatchAlike(a: Service, b: Service, n: nat, subtask: Id, ref: nat, targets: seq<Path>)
    requires a.requests.Keys == b.requests.Keys
    requires forall t :: t in a.requests ==>
               && a.requests[t].requestedAt == b.requests[t].requestedAt
               && (Again(a.requests[t], subtask, ref, targets) <==> Again(b.requests[t], subtask, ref, targets))
    ensures LastMatch(a, n, subtask, ref, targets) == LastMatch(b, n, subtask, ref, targets)
  {
    if n > 0 {
      LastMatchAlike(a, b, n - 1, subtask, ref, targets);
      forall t | t in a.requests
        ensures Matches(a.requests[t], subtask, ref, targets) <==> Again(a.requests[t], subtask, ref, targets)
        ensures Matches(b.requests[t], subtask, ref, targets) <==> Again(b.requests[t], subtask, ref, targets)
      {
      }
    }
  }

  /** The request an execution asks for: decidable, for this subtask, this saved diff and
      these targets; what was requested before stays as it is. */
  lemma AskedIsDecidable(w: World, call: Call, p: Proposal)
    requires Filed(w.service)
    ensures var asked := Ask(w, call, p); var r := asked.world.service.requests[asked.ticket];
            && Filed(asked.world.service) && asked.world.disk == w.disk && asked.world.reports == w.reports
            && r.status in {Pending, Approved} && r.subtask == call.subtask && r.operation.targets == p.targets
            && asked.parameter == r.parameter
            && r.operation.diffRef.Some? && r.operation.diffRef.value < |asked.world.artifacts|
            && asked.world.artifacts[r.operation.diffRef.value] == Artifact(call.subtask, p.diff)
            && (forall t :: t in w.service.requests ==>
                  t in asked.world.service.requests && asked.world.service.requests[t] == w.service.requests[t])
            && (asked.ticket !in w.service.requests ==>
                  && r.status == Pending && r.parameter == Bound(p) && r.target == Bound(Held(w.disk.tree, p.targets))
                  && r.requestedAt == call.now && r.expires == Some(call.now + w.service.ttl))
  {
  }

  // ----- Executions without a replay -----

  /** Nothing is replayed, and there is a proposal. */
  ghost predicate Proposes(w: World, call: Call) {
    call.proposal.Some? && LastReusable(w, call.subtask, |w.reports|).None?
  }

  /** The request is approved, in time, and bound to what the targets hold and to the
      parameter presented. */
  ghost predicate StillHolds(r: Request, tree: Tree, targets: seq<Path>, parameter: Bound<Proposal>, at: int) {
    && r.status == Approved && (r.expires.Some? ==> at <= r.expires.value)
    && (parameter.Bound? ==> r.parameter == parameter)
    && r.target.Bound? && r.target.value == Held(tree, targets)
  }

  /** The patch was applied to this disk, whole or with the failure restored. */
  ghost predicate Patched(before: World, after: World, call: Call, r: Result, t: Ticket)
    requires call.proposal.Some?
  {
    var patch := Patch(call.proposal.value.targets, call.proposal.value.diff, t);
    && after.disk == Applied(before.disk, patch, call.faults)
    && (r == Implemented(t) <==> Succeeds(before.disk, patch, call.faults))
    && (r == ApplyFailed(t) <==> !Succeeds(before.disk, patch, call.faults))
    && after.reports == before.reports
                        + if r == Implemented(t) && call.tests.Some? then [Report(call.subtask, t, call.tests.value)]
                          else []
  }

  lemma ExecuteAnswers(w: World, call: Call, t: Ticket, parameter: Bound<Proposal>)
    requires call.proposal.Some? && t in w.service.requests
    ensures var p := call.proposal.value; var (after, r) := Execute(w, call, p, t, parameter);
            if StillHolds(w.service.requests[t], w.disk.tree, p.targets, parameter, call.verifyAt)
            then after.service == w.service && Patched(w, after, call, r, t)
            else r == NotVerified(t) && after.disk == w.disk && after.reports == w.reports
  {
    hide Applied, Succeeds, Held;
    assert w.reports + [] == w.reports;
  }

  /** The user approved: the patch is applied exactly if the request named is known,
      approved, in time, and still bound to the proposal and to what the targets hold;
      otherwise nothing on disk changes. */
  lemma ApprovalIsExecuted(w: World, call: Call, t: Ticket)
    requires Filed(w.service) && Proposes(w, call) && !call.automatic && call.payload == Some(Payload(t, true))
    ensures var (after, r) := RunNode(w, call); var asked := Ask(w, call, call.proposal.value);
            var known := asked.world.service.requests;
            if t !in known then r == Mismatch && after.disk == w.disk && after.reports == w.reports
            else if StillHolds(known[t], w.disk.tree, call.proposal.value.targets, asked.parameter, call.verifyAt)
            then Patched(w, after, call, r, t) && after.service.requests == known
            else r == NotVerified(t) && after.disk == w.disk && after.reports == w.reports
  {
    hide Ask, Execute, StillHolds, Patched, LastReusable, Filed;
    var asked := Ask(w, call, call.proposal.value);
    AskedIsDecidable(w, call, call.proposal.value);
    if t in asked.world.service.requests {
      ExecuteAnswers(asked.world, call, t, asked.parameter);
      PatchedFrom(asked.world, w, RunNode(w, call).0, call, RunNode(w, call).1, t);
    }
  }

  lemma PatchedFrom(a: World, b: World, after: World, call: Call, r: Result, t: Ticket)
    requires a.disk == b.disk && a.reports == b.reports && call.proposal.Some?
    ensures Patched(a, after, call, r, t) ==> Patched(b, after, call, r, t)
  {
  }

  /** The user rejected: nothing is applied or reported, the request named stays as it is,
      and one that was asked for in vain is cancelled, or expired if its time is over. */
  lemma RejectionIsKept(w: World, call: Call, t: Ticket)
    requires Filed(w.service) && Proposes(w, call) && !call.automatic && call.payload == Some(Payload(t, false))
    requires t in Ask(w, call, call.proposal.value).world.service.requests
    ensures var (after, r) := RunNode(w, call); var asked := Ask(w, call, call.proposal.value);
            var known := asked.world.service.requests;
            && r == RejectedByUser(t) && after.disk == w.disk && after.reports == w.reports
            && after.service.requests.Keys == known.Keys
            && (forall u :: u in known && (u != asked.ticket || u == t) ==> after.service.requests[u] == known[u])
            && (asked.ticket != t ==>
                  after.service.requests[asked.ticket].status
                  == if Open(asked.world.service, asked.ticket, call.now) then Cancelled else Expired)
  {
    hide Ask, LastReusable;
    var asked := Ask(w, call, call.proposal.value);
    AskedIsDecidable(w, call, call.proposal.value);
    if Open(asked.world.service, asked.ticket, call.now) {
      DecisionTakesEffect(asked.world.service, asked.ticket, Cancel, "superseded by user decision", call.now);
    }
  }

  /** The permission policy approves on the spot: the request asked for is approved and
      the patch applied exactly if its time is not over and the targets hold what it is
      bound to; a request made in the same execution is always bound to them. */
  lemma PolicyIsExecuted(w: World, call: Call)
    requires Filed(w.service) && Proposes(w, call) && call.automatic
    ensures var (after, r) := RunNode(w, call); var asked := Ask(w, call, call.proposal.value);
            var t, open := asked.ticket, asked.world.service.requests[asked.ticket];
            if !Open(asked.world.service, t, call.now) then r == Raised && after.disk == w.disk
            else if Open(asked.world.service, t, call.verifyAt)
                    && open.target == Bound(Held(w.disk.tree, call.proposal.value.targets))
            then Patched(w, after, call, r, t) && after.service.requests[t].status == Approved
            else r == NotVerified(t) && after.disk == w.disk && after.reports == w.reports
    ensures var asked := Ask(w, call, call.proposal.value);
            asked.ticket !in w.service.requests ==>
              asked.world.service.requests[asked.ticket].target == Bound(Held(w.disk.tree, call.proposal.value.targets))
  {
    hide Ask, Execute, Patched, LastReusable, Held;
    var asked := Ask(w, call, call.proposal.value);
    var t := asked.ticket;
    AskedIsDecidable(w, call, call.proposal.value);
    if Open(asked.world.service, t, call.now) {
      DecisionTakesEffect(asked.world.service, t, Approve, "policy", call.now);
      var decided := asked.world.(service := Decide(asked.world.service, t, Approve, "policy", call.now).0);
      ExecuteAnswers(decided, call, t, asked.parameter);
      PatchedFrom(decided, w, RunNode(w, call).0, call, RunNode(w, call).1, t);
    }
  }

  /** Without a decision the run pauses with a request that can be decided; without a
      proposal nothing happens at all. */
  lemma OtherwisePaused(w: World, call: Call)
    requires Filed(w.service) && LastReusable(w, call.subtask, |w.reports|).None? && !call.automatic
    ensures call.proposal.None? ==> RunNode(w, call) == (w, NoProposal)
    ensures call.proposal.Some? && call.payload.None? ==>
              var (after, r) := RunNode(w, call); var asked := Ask(w, call, call.proposal.value);
              && after == asked.world && r == Paused(asked.ticket) && r.ticket in after.service.requests
              && after.service.requests[r.ticket].status in {Pending, Approved}
              && after.disk == w.disk && after.reports == w.reports
  {
    hide Ask, LastReusable;
    if call.proposal.Some? { AskedIsDecidable(w, call, call.proposal.value); }
  }

  // ----- Replays -----

  /** A report that is replayed: of this subtask, with passing tests, under an approval
      whose diff is still saved. */
  predicate Replayable(w: World, report: Report, subtask: Id) {
    && report.subtask == subtask && report.passed && report.ticket in w.service.requests
    && w.service.requests[report.ticket].status == Approved
    && w.service.requests[report.ticket].operation.diffRef.Some?
    && w.service.requests[report.ticket].operation.diffRef.value < |w.artifacts|
  }

  lemma {:induction false} LastReusableIsLatest(w: World, subtask: Id, n: nat)
    requires n <= |w.reports|
    ensures var r := LastReusable(w, subtask, n);
            && (r.None? <==> forall i :: 0 <= i < n ==> !Replayable(w, w.reports[i], subtask))
            && (r.Some? ==>
                  exists i :: 0 <= i < n && LatestReplayable(w, subtask, n, i) && w.reports[i].ticket == r.value)
  {
    if n > 0 {
      LastReusableIsLatest(w, subtask, n - 1);
      if Replayable(w, w.reports[n - 1], subtask) {
        assert LatestReplayable(w, subtask, n, n - 1);
      } else if LastReusable(w, subtask, n - 1).Some? {
        var i :| 0 <= i < n - 1 && LatestReplayable(w, subtask, n - 1, i)
                 && w.reports[i].ticket == LastReusable(w, subtask, n - 1).value;
        assert LatestReplayable(w, subtask, n, i);
      }
    }
  }

  ghost predicate LatestReplayable(w: World, subtask: Id, n: nat, i: nat)
    requires i < n <= |w.reports|
  {
    && Replayable(w, w.reports[i], subtask)
    && forall j :: i < j < n ==> !Replayable(w, w.reports[j], subtask)
  }

  /** An execution replays exactly if an approved patch of its subtask has passed its
      tests; it then answers with the latest one, and changes nothing. */
  lemma ReplaysExactly(w: World, call: Call)
    ensures var (after, r) := RunNode(w, call); var n := |w.reports|;
            && (r.Replayed? <==> exists i :: 0 <= i < n && Replayable(w, w.reports[i], call.subtask))
            && (r.Replayed? ==>
                  after == w && exists i :: 0 <= i < n && LatestReplayable(w, call.subtask, n, i)
                                            && w.reports[i].ticket == r.ticket)
  {
    hide Ask, Decide, LastReusable, Replayable, Verify, Applied, Succeeds, Held;
    LastReusableIsLatest(w, call.subtask, |w.reports|);
  }

  // ----- A whole approval -----

  /** The same execution again, with the user's decision and perhaps other prose. */
  predicate Resumes(call: Call, again: Call, payload: Payload) {
    && again.subtask == call.subtask && !again.automatic && again.payload == Some(payload)
    && call.proposal.Some? && again.proposal.Some?
    && again.proposal.value.targets == call.proposal.value.targets
    && again.proposal.value.diff == call.proposal.value.diff
  }

  lemma {:induction false} FirstIndex(artifacts: seq<Artifact>, a: Artifact, more: seq<Artifact>)
    requires a in artifacts
    ensures IndexOf(artifacts + more, a) == IndexOf(artifacts, a)
  {
    if artifacts[0] != a {
      FirstIndex(artifacts[1..], a, more);
      assert (artifacts + more)[1..] == artifacts[1..] + more;
    }
  }

  lemma {:induction false} NewIndex(artifacts: seq<Artifact>, a: Artifact)
    requires a !in artifacts
    ensures IndexOf(artifacts, a) == |artifacts| == IndexOf(artifacts + [a], a)
  {
    if artifacts != [] {
      NewIndex(artifacts[1..], a);
      assert (artifacts + [a])[1..] == artifacts[1..] + [a];
    }
  }

  /** Asking again, after the request was decided to be approved or left pending, asks for
      the same request. */
  lemma AskedAgain(w: World, call: Call, p: Proposal, service: Service, q: Proposal, again: Call)
    requires Filed(w.service) && p.targets == q.targets && p.diff == q.diff && again.subtask == call.subtask
    requires var asked := Ask(w, call, p); var now := asked.world.service;
             && (forall t :: t in now.requests ==> t.number < now.next)
             && service.next == now.next && service.requests.Keys == now.requests.Keys
             && (forall t :: t in now.requests ==>
                   && service.requests[t].requestedAt == now.requests[t].requestedAt
                   && SameBinding(service.requests[t], now.requests[t])
                   && (service.requests[t].status in {Pending, Approved}
                       <==> now.requests[t].status in {Pending, Approved}))
    requires LatestAsked(w, call, p)
    ensures var asked := Ask(w, call, p); var back := Ask(asked.world.(service := service), again, q);
            && back.ticket == asked.ticket && back.parameter == asked.parameter && back.world.disk == w.disk
            && back.world.service == service && back.world.reports == w.reports
  {
    var a := Artifact(call.subtask, p.diff);
    var asked := Ask(w, call, p);
    var ref, more := IndexOf(w.artifacts, a), WithDiff(w.artifacts, a);
    if a in w.artifacts { assert more + [] == more; FirstIndex(w.artifacts, a, []); } else { NewIndex(w.artifacts, a); }
    assert IndexOf(more, a) == ref && more == asked.world.artifacts && WithDiff(more, a) == more;
    LastMatchAlike(asked.world.service, service, service.next, call.subtask, ref, p.targets);
    AskedIsLast(w, call, p);
  }

  /** No earlier request that could be taken up was asked for later than this execution. */
  ghost predicate LatestAsked(w: World, call: Call, p: Proposal) {
    forall t :: t in w.service.requests ==> w.service.requests[t].requestedAt <= call.now
  }

  /** Right after asking, the request asked for is the last match. */
  lemma AskedIsLast(w: World, call: Call, p: Proposal)
    requires Filed(w.service) && LatestAsked(w, call, p)
    ensures var asked := Ask(w, call, p); var s := asked.world.service;
            LastMatch(s, s.next, call.subtask, IndexOf(w.artifacts, Artifact(call.subtask, p.diff)), p.targets)
            == Some(asked.ticket)
  {
    var asked := Ask(w, call, p);
    var ref, s := IndexOf(w.artifacts, Artifact(call.subtask, p.diff)), asked.world.service;
    var found := LastMatch(w.service, w.service.next, call.subtask, ref, p.targets);
    if found.None? {
      MatchesBefore(w.service, s, w.service.next, call.subtask, ref, p.targets);
      assert s.next - 1 == w.service.next && Ticket(s.next - 1) in s.requests;
    }
  }

  lemma {:induction false} MatchesBefore(a: Service, b: Service, n: nat, subtask: Id, ref: nat, targets: seq<Path>)
    requires forall k: nat :: k < n ==>
               (Ticket(k) in a.requests <==> Ticket(k) in b.requests)
               && (Ticket(k) in a.requests ==> a.requests[Ticket(k)] == b.requests[Ticket(k)])
    ensures LastMatch(a, n, subtask, ref, targets) == LastMatch(b, n, subtask, ref, targets)
    ensures var r := LastMatch(a, n, subtask, ref, targets); r.Some? ==> r.value.number < n
  {
    if n > 0 {
      MatchesBefore(a, b, n - 1, subtask, ref, targets);
    }
  }

  /** From the pause to the patch: an execution pauses with a request, the user approves it
      in time and resumes, and the execution, proposing the same patch again, applies it -
      if the request has not expired and the targets hold what it is bound to. */
  lemma PausedThenApproved(w: World, call: Call, again: Call, reason: string, at: int)
    requires Filed(w.service) && Proposes(w, call) && !call.automatic && call.payload.None?
    requires LatestAsked(w, call, call.proposal.value)
    requires RunNode(w, call).1.Paused? ==> Resumes(call, again, Payload(RunNode(w, call).1.ticket, true))
    ensures var (paused, r) := RunNode(w, call);
            && r.Paused? && r.ticket in paused.service.requests
            && var t := r.ticket; var decided := Decide(paused.service, t, Approve, reason, at);
               Open(paused.service, t, at) && Open(paused.service, t, again.verifyAt)
               && paused.service.requests[t].target == Bound(Held(w.disk.tree, again.proposal.value.targets))
               && Proposes(paused.(service := decided.0), again) ==>
                 && decided.1 == Fine
                 && var (after, done) := RunNode(paused.(service := decided.0), again);
                    Patched(w, after, again, done, t)
  {
    hide Ask, LastReusable, Patched, Held, StillHolds, RunNode;
    OtherwisePaused(w, call);
    var p, q := call.proposal.value, again.proposal.value;
    var asked := Ask(w, call, p);
    AskedIsDecidable(w, call, p);
    var t, paused := asked.ticket, asked.world;
    var decided := Decide(paused.service, t, Approve, reason, at);
    var resumed := paused.(service := decided.0);
    if Open(paused.service, t, at) && Open(paused.service, t, again.verifyAt)
       && paused.service.requests[t].target == Bound(Held(w.disk.tree, q.targets)) && Proposes(resumed, again) {
      DecisionTakesEffect(paused.service, t, Approve, reason, at);
      AskedAgain(w, call, p, decided.0, q, again);
      ApprovalIsExecuted(resumed, again, t);
      assert StillHolds(decided.0.requests[t], w.disk.tree, q.targets, asked.parameter, again.verifyAt) by {
        Holding(decided.0.requests[t], w.disk.tree, q.targets, asked.parameter, again.verifyAt);
      }
      PatchedFrom(resumed, w, RunNode(resumed, again).0, again, RunNode(resumed, again).1, t);
    }
  }

  lemma Holding(r: Request, tree: Tree, targets: seq<Path>, parameter: Bound<Proposal>, at: int)
    requires r.status == Approved && (r.expires.Some? ==> at <= r.expires.value) && r.parameter == parameter
    requires r.target == Bound(Held(tree, targets))
    ensures StillHolds(r, tree, targets, parameter, at)
  {
  }

  /** From the pause to nothing: if the user rejects, the resumed execution applies nothing,
      leaves the rejection standing, and the request it has asked for anew is cancelled. */
  lemma PausedThenRejected(w: World, call: Call, again: Call, reason: string, at: int)
    requires Filed(w.service) && Proposes(w, call) && !call.automatic && call.payload.None?
    requires RunNode(w, call).1.Paused? ==> Resumes(call, again, Payload(RunNode(w, call).1.ticket, false))
    ensures var (paused, r) := RunNode(w, call);
            && r.Paused? && r.ticket in paused.service.requests
            && var t := r.ticket; var decided := Decide(paused.service, t, Reject, reason, at);
               Open(paused.service, t, at) && Proposes(paused.(service := decided.0), again) ==>
                 var (after, done) := RunNode(paused.(service := decided.0), again);
                 && done == RejectedByUser(t) && after.disk == w.disk && after.reports == w.reports
                 && t in after.service.requests && after.service.requests[t].status == Rejected
                 && forall u :: u in after.service.requests && u !in paused.service.requests ==>
                      after.service.requests[u].status in {Cancelled, Expired}
  {
    hide Ask, LastReusable, Decide, Filed, RunNode;
    OtherwisePaused(w, call);
    var p, q := call.proposal.value, again.proposal.value;
    AskedIsDecidable(w, call, p);
    var t, paused := Ask(w, call, p).ticket, Ask(w, call, p).world;
    var decided := Decide(paused.service, t, Reject, reason, at);
    var resumed := paused.(service := decided.0);
    if Open(paused.service, t, at) && Proposes(resumed, again) {
      DecisionTakesEffect(paused.service, t, Reject, reason, at);
      DecisionKeepsFiled(paused.service, t, Reject, reason, at);
      AskedIsDecidable(resumed, again, q);
      NothingElseAsked(resumed, again, q);
      RejectionIsKept(resumed, again, t);
    }
  }

  lemma DecisionKeepsFiled(s: Service, t: Ticket, d: Decision, reason: string, now: int)
    requires Filed(s)
    ensures Filed(Decide(s, t, d, reason, now).0)
  {
  }

  lemma NothingElseAsked(w: World, call: Call, p: Proposal)
    ensures var asked := Ask(w, call, p);
            forall u :: u in asked.world.service.requests ==> u in w.service.requests || u == asked.ticket
  {
  }
}
