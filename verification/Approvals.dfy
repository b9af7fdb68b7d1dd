/** The approval service: requests bound to hashes, decisions, verification before
    execution, and the append-only log they are reloaded from. */
module Approvals {
  import opened Plans
  import opened Hunks
  import opened Worktree

  /** A patch proposal; `prose` is everything about it that is not executed. */
  datatype Proposal = Proposal(targets: seq<Path>, diff: seq<DiffLine>, prose: string)

  /** A hash, as the value it was taken of; an empty hash is not compared. */
  datatype Bound<+T> = Unbound | Bound(value: T)

  /** What the operation hash covers. */
  datatype Operation = Operation(action: string, tool: string, summary: string, targets: seq<Path>, argv: seq<string>,
                                 diffRef: Option<nat>)

  datatype Status = Pending | Approved | Rejected | Expired | Cancelled

  datatype Decision = Approve | Reject | Cancel | Unknown

  datatype Request = Request(
    ticket: Ticket, subtask: Id, operation: Operation, parameter: Bound<Proposal>, target: Bound<Tree>,
    requestedAt: int, expires: Option<int>, status: Status, decidedAt: Option<int>, reason: string)

  /** The part of a request its caller gives. */
  datatype Draft = Draft(subtask: Id, operation: Operation, parameter: Bound<Proposal>, target: Bound<Tree>)

  datatype Error = NotFound | PastExpiry | AlreadyRejected | Closed | InvalidDecision
                 | NotApproved | OperationMismatch | ParameterMismatch | TargetMismatch

  datatype Outcome = Fine | Failed(error: Error)

  /** Request identifiers are fresh, counted by `next`. */
  datatype Service = Service(durable: bool, ttl: int, requests: map<Ticket, Request>, log: seq<Request>, next: nat)

  predicate IsExpired(r: Request, now: int) {
    r.expires.Some? && now > r.expires.value
  }

  // ----- What the operations do -----

  /** Store a request and append it to the log. */
  function Keep(s: Service, r: Request): Service {
    s.(requests := s.requests[r.ticket := r], log := if s.durable then s.log + [r] else s.log)
  }

  function Create(s: Service, draft: Draft, now: int): Service {
    var r := Request(Ticket(s.next), draft.subtask, draft.operation, draft.parameter, draft.target,
                     now, Some(now + s.ttl), Pending, None, "");
    Keep(s, r).(next := s.next + 1)
  }

  function StatusOf(d: Decision): Status
    requires !d.Unknown?
  {
    match d
    case Approve => Approved
    case Reject => Rejected
    case Cancel => Cancelled
  }

  function Decide(s: Service, t: Ticket, d: Decision, reason: string, now: int): (r: (Service, Outcome))
    ensures s.requests.Keys <= r.0.requests.Keys
  {
    if t !in s.requests then (s, Failed(NotFound))
    else
      var r := s.requests[t];
      if IsExpired(r, now) then (Keep(s, r.(status := Expired)), Failed(PastExpiry))
      else if r.status == Approved && d == Approve then (s, Fine)
      else if r.status == Rejected then (s, Failed(AlreadyRejected))
      else if r.status != Pending && r.status != Approved then (s, Failed(Closed))
      else if d == Unknown then (s, Failed(InvalidDecision))
      else (Keep(s, r.(status := StatusOf(d), decidedAt := Some(now), reason := reason)), Fine)
  }

  /** What the caller of a verification presents. */
  datatype Claim = Claim(parameter: Bound<Proposal>, target: Bound<Tree>, operation: Option<Operation>)

  function Verify(s: Service, t: Ticket, c: Claim, now: int): (Service, Outcome)
    requires t in s.requests
  {
    var r := s.requests[t];
    if r.status != Approved then (s, Failed(NotApproved))
    else if IsExpired(r, now) then (Keep(s, r.(status := Expired)), Failed(PastExpiry))
    else if c.operation.Some? && c.operation.value != r.operation then (s, Failed(OperationMismatch))
    else if c.parameter.Bound? && c.parameter != r.parameter then (s, Failed(ParameterMismatch))
    else if c.target.Bound? && c.target != r.target then (s, Failed(TargetMismatch))
    else (s, Fine)
  }

  /** The last line written for a ticket wins. */
  function Replay(log: seq<Request>): map<Ticket, Request> {
    if log == [] then map[]
    else
      var last := log[|log| - 1];
      Replay(log[..|log| - 1])[last.ticket := last]
  }

  /** A new process over the same storage. */
  function Reload(s: Service): Service {
    s.(requests := if s.durable then Replay(s.log) else map[])
  }

  // ----- The service -----

  class ApprovalService {
    const durable: bool
    const ttl: int
    var requests: map<Ticket, Request>
    var log: seq<Request>
    var next: nat

    ghost function State(): Service reads this {
      Service(durable, ttl, requests, log, next)
    }

    constructor (durable: bool, ttl: int)
      ensures State() == Service(durable, ttl, map[], [], 0)
    {
      this.durable, this.ttl, requests, log, next := durable, ttl, map[], [], 0;
    }

    method Persist(r: Request)
      modifies `log
      ensures log == if durable then old(log) + [r] else old(log)
    {
      if durable {
        log := log + [r];
      }
    }

    method CreateRequest(draft: Draft, now: int) returns (t: Ticket)
      modifies this
      ensures t == Ticket(old(next)) && State() == Create(old(State()), draft, now)
    {
      t := Ticket(next);
      var r := Request(t, draft.subtask, draft.operation, draft.parameter, draft.target, now, Some(now + ttl), Pending,
                       None, "");
      next := next + 1;
      requests := requests[t := r];
      Persist(r);
    }

    method DecideRequest(t: Ticket, d: Decision, reason: string, now: int) returns (o: Outcome)
      requires Filed(State())
      modifies this
      ensures (State(), o) == Decide(old(State()), t, d, reason, now)
    {
      if t !in requests { return Failed(NotFound); }
      var r := requests[t];
      if IsExpired(r, now) {
        r := r.(status := Expired);
        requests := requests[t := r];
        Persist(r);
        return Failed(PastExpiry);
      }
      if r.status == Approved && d == Approve { return Fine; }
      if r.status == Rejected { return Failed(AlreadyRejected); }
      if r.status != Pending && r.status != Approved { return Failed(Closed); }
      if d == Unknown { return Failed(InvalidDecision); }
      r := r.(status := StatusOf(d));
      r := r.(decidedAt := Some(now));
      r := r.(reason := reason);
      requests := requests[t := r];
      Persist(r);
      o := Fine;
    }

    method CancelRequest(t: Ticket, reason: string, now: int) returns (o: Outcome)
      requires Filed(State())
      modifies this
      ensures (State(), o) == Decide(old(State()), t, Cancel, reason, now)
    {
      o := DecideRequest(t, Cancel, reason, now);
    }

    method VerifyExecution(t: Ticket, c: Claim, now: int) returns (o: Outcome)
      requires Filed(State()) && t in requests
      modifies this
      ensures (State(), o) == Verify(old(State()), t, c, now)
    {
      var r := requests[t];
      if r.status != Approved { return Failed(NotApproved); }
      if IsExpired(r, now) {
        r := r.(status := Expired);
        requests := requests[t := r];
        Persist(r);
        return Failed(PastExpiry);
      }
      if c.operation.Some? && c.operation.value != r.operation { return Failed(OperationMismatch); }
      if c.parameter.Bound? && c.parameter != r.parameter { return Failed(ParameterMismatch); }
      if c.target.Bound? && c.target != r.target { return Failed(TargetMismatch); }
      o := Fine;
    }

    method Load()
      modifies `requests
      ensures State() == Reload(old(State()))
    {
      requests := map[];
      if !durable { return; }
      for i := 0 to |log|
        invariant requests == Replay(log[..i])
      {
        assert log[..i + 1][..i] == log[..i];
        requests := requests[log[i].ticket := log[i]];
      }
      assert log[..|log|] == log;
    }
  }

  // ----- Runs -----

  /** Requests are filed under their own tickets, all of them issued. */
  ghost predicate Filed(s: Service) {
    forall t :: t in s.requests ==> s.requests[t].ticket == t && t.number < s.next
  }

  datatype Op =
    | CreateOp(draft: Draft, now: int)
    | DecideOp(ticket: Ticket, decision: Decision, reason: string, now: int)
    | VerifyOp(ticket: Ticket, claim: Claim, now: int)
    | ReloadOp

  function Step(s: Service, op: Op): Service {
    match op
    case CreateOp(draft, now) => Create(s, draft, now)
    case DecideOp(t, d, reason, now) => Decide(s, t, d, reason, now).0
    case VerifyOp(t, c, now) => if t in s.requests then Verify(s, t, c, now).0 else s
    case ReloadOp => Reload(s)
  }

  function Run(s: Service, ops: seq<Op>): Service {
    if ops == [] then s else Step(Run(s, ops[..|ops| - 1]), ops[|ops| - 1])
  }

  /** Replaying the log gives the requests in memory. */
  ghost predicate Consistent(s: Service) {
    s.durable && Filed(s) && Replay(s.log) == s.requests
  }

  lemma KeepConsistent(s: Service, r: Request)
    requires Consistent(s) && r.ticket.number < s.next
    ensures Consistent(Keep(s, r))
  {
    assert (s.log + [r])[..|s.log|] == s.log;
  }

  lemma StepConsistent(s: Service, op: Op)
    requires Consistent(s)
    ensures Consistent(Step(s, op))
  {
    match op
    case CreateOp(draft, now) =>
      var r := Request(Ticket(s.next), draft.subtask, draft.operation, draft.parameter, draft.target, now,
                       Some(now + s.ttl), Pending, None, "");
      KeepConsistent(s.(next := s.next + 1), r);
      assert Create(s, draft, now) == Keep(s.(next := s.next + 1), r);
    case DecideOp(t, d, reason, now) =>
      if t in s.requests {
        var r := s.requests[t];
        KeepConsistent(s, r.(status := Expired));
        if d != Unknown { KeepConsistent(s, r.(status := StatusOf(d), decidedAt := Some(now), reason := reason)); }
      }
    case VerifyOp(t, c, now) =>
      if t in s.requests { KeepConsistent(s, s.requests[t].(status := Expired)); }
    case ReloadOp =>
  }

  /** Log refinement: after any operations, reloading from the log gives exactly the
      requests in memory, so a restart loses and changes nothing. */
  lemma {:induction false} LogIsTheMap(s: Service, ops: seq<Op>)
    requires Consistent(s)
    ensures Consistent(Run(s, ops)) && Reload(Run(s, ops)) == Run(s, ops)
  {
    if ops != [] {
      LogIsTheMap(s, ops[..|ops| - 1]);
      StepConsistent(Run(s, ops[..|ops| - 1]), ops[|ops| - 1]);
    }
  }

  /** What an approval is bound to. */
  ghost predicate SameBinding(a: Request, b: Request) {
    && a.ticket == b.ticket && a.subtask == b.subtask && a.operation == b.operation
    && a.parameter == b.parameter && a.target == b.target && a.expires == b.expires
  }

  /** A closed request stays closed. */
  ghost predicate Later(a: Request, b: Request) {
    SameBinding(a, b) && (a.status != Pending && a.status != Approved ==> b.status != Pending && b.status != Approved)
  }

  lemma StepLater(s: Service, op: Op, t: Ticket)
    requires Consistent(s) && t in s.requests
    ensures t in Step(s, op).requests && Later(s.requests[t], Step(s, op).requests[t])
  {
  }

  /** Whatever is done, and whatever the clock says: bound hashes and expiry never change,
      and a request that left pending and approved is never approved, nor verified, again. */
  lemma {:induction false} ClosedStaysClosed(s: Service, ops: seq<Op>, t: Ticket)
    requires Consistent(s) && t in s.requests
    ensures t in Run(s, ops).requests && Later(s.requests[t], Run(s, ops).requests[t])
    ensures s.requests[t].status !in {Pending, Approved} ==>
              forall c: Claim, now: int :: Verify(Run(s, ops), t, c, now).1 == Failed(NotApproved)
  {
    if ops != [] {
      var front := ops[..|ops| - 1];
      ClosedStaysClosed(s, front, t);
      LogIsTheMap(s, front);
      StepLater(Run(s, front), ops[|ops| - 1], t);
    }
  }

  /** An accepted approval: the decision that made a request approved, in time. */
  ghost predicate ApprovedBy(s: Service, ops: seq<Op>, t: Ticket, i: nat)
    requires i < |ops|
  {
    && ops[i].DecideOp? && ops[i].ticket == t && ops[i].decision == Approve
    && t in Run(s, ops[..i]).requests && !IsExpired(Run(s, ops[..i]).requests[t], ops[i].now)
  }

  /** Nothing is approved but by an approving decision taken before the expiry. */
  lemma {:induction false} ApprovedOnlyByDecision(s: Service, ops: seq<Op>, t: Ticket) returns (i: nat)
    requires Consistent(s) && s.requests == map[]
    requires t in Run(s, ops).requests && Run(s, ops).requests[t].status == Approved
    ensures i < |ops| && ApprovedBy(s, ops, t, i)
  {
    LogIsTheMap(s, ops);
    var n := |ops| - 1;
    var front := ops[..n];
    LogIsTheMap(s, front);
    var before := Run(s, front);
    if t in before.requests && before.requests[t].status == Approved {
      i := ApprovedOnlyByDecision(s, front, t);
      assert front[..i] == ops[..i] && front[i] == ops[i];
    } else {
      i := n;
      ApprovedHere(before, ops[n], t);
    }
  }

  lemma ApprovedHere(s: Service, op: Op, t: Ticket)
    requires Consistent(s) && (t in s.requests ==> s.requests[t].status != Approved)
    requires t in Step(s, op).requests && Step(s, op).requests[t].status == Approved
    ensures op.DecideOp? && op.ticket == t && op.decision == Approve && t in s.requests
            && !IsExpired(s.requests[t], op.now)
  {
  }

  /** Verification succeeds exactly when the request is approved, in time, and every hash
      presented is the bound one; it never changes anything but an expired status. */
  lemma VerifiedExactly(s: Service, t: Ticket, c: Claim, now: int)
    requires Consistent(s) && t in s.requests
    ensures var r, v := s.requests[t], Verify(s, t, c, now);
            && (v.1 == Fine <==>
                  && r.status == Approved && !IsExpired(r, now)
                  && (c.operation.Some? ==> c.operation.value == r.operation)
                  && (c.parameter.Bound? ==> c.parameter == r.parameter)
                  && (c.target.Bound? ==> c.target == r.target))
            && (v.0 == s || (r.status == Approved && IsExpired(r, now)
                             && v.0.requests == s.requests[t := r.(status := Expired)]))
  {
  }

  /** A decision past the expiry closes the request for good, whatever its status was and
      even if the clock is set back: nothing done later gets it approved or verified. */
  lemma DecidedTooLate(s: Service, t: Ticket, d: Decision, reason: string, now: int, later: seq<Op>)
    requires Consistent(s) && t in s.requests && IsExpired(s.requests[t], now)
    ensures var end := Run(Decide(s, t, d, reason, now).0, later);
            && t in end.requests && SameBinding(s.requests[t], end.requests[t])
            && end.requests[t].status !in {Pending, Approved}
            && forall c: Claim, at: int :: Verify(end, t, c, at).1 == Failed(NotApproved)
  {
    var op := DecideOp(t, d, reason, now);
    StepConsistent(s, op);
    ClosedStaysClosed(Step(s, op), later, t);
  }

  // ----- Decisions take effect -----

  /** A request that can still be decided and is not past its expiry. */
  predicate Open(s: Service, t: Ticket, now: int) {
    && t in s.requests && s.requests[t].status in {Pending, Approved}
    && (s.requests[t].expires.Some? ==> now <= s.requests[t].expires.value)
  }

  /** Any decision on an open request is accepted and does what it says, to this request
      only; approving twice is approving once. */
  lemma DecisionTakesEffect(s: Service, t: Ticket, d: Decision, reason: string, now: int)
    requires Filed(s) && Open(s, t, now) && d != Unknown
    ensures var (after, o) := Decide(s, t, d, reason, now); var was := s.requests[t];
            && o == Fine && t in after.requests && SameBinding(was, after.requests[t])
            && (after.requests[t].status == Approved <==> d == Approve)
            && (after.requests[t].status == Rejected <==> d == Reject)
            && (after.requests[t].status == Cancelled <==> d == Cancel)
            && (if was.status == Approved && d == Approve then after == s
                else after.requests[t].decidedAt == Some(now) && after.requests[t].reason == reason)
            && after.requests == s.requests[t := after.requests[t]]
  {
  }

  /** What is presented when nothing has changed since the request was made. */
  function OwnClaim(r: Request): Claim {
    Claim(r.parameter, r.target, Some(r.operation))
  }

  /** An approved request is verified with its own bindings until it expires, and a
      rejected or cancelled one never is: each is refused by an error of its own. */
  lemma DecidedIsVerified(s: Service, t: Ticket, d: Decision, reason: string, now: int, at: int, again: Decision)
    requires Filed(s) && Open(s, t, now) && d != Unknown
    ensures var after := Decide(s, t, d, reason, now).0; var late := !Open(s, t, at);
            && Verify(after, t, OwnClaim(s.requests[t]), at).1
               == (if d != Approve then Failed(NotApproved) else if late then Failed(PastExpiry) else Fine)
            && (late ==> Decide(after, t, again, reason, at).1 == Failed(PastExpiry))
            && (!late && d == Reject ==> Decide(after, t, again, reason, at).1 == Failed(AlreadyRejected))
            && (!late && d == Cancel ==> Decide(after, t, again, reason, at).1 == Failed(Closed))
  {
    DecisionTakesEffect(s, t, d, reason, now);
  }

  /** Nobody can decide what was never requested, or decide it with an unknown word. */
  lemma UndecidableIsRefused(s: Service, t: Ticket, d: Decision, reason: string, now: int)
    ensures t !in s.requests ==> Decide(s, t, d, reason, now) == (s, Failed(NotFound))
    ensures Open(s, t, now) ==> Decide(s, t, Unknown, reason, now) == (s, Failed(InvalidDecision))
  {
  }

  /** From the request to the execution: within its life a new request is approved and
      verified with what it was made of, past it neither; a changed parameter or target is
      refused as such, and no other request is touched. */
  lemma RequestLives(s: Service, draft: Draft, made: int, decided: int, at: int, c: Claim)
    requires Filed(s)
    ensures var t, open := Ticket(s.next), Create(s, draft, made);
            && t !in s.requests && t in open.requests && open.requests == s.requests[t := open.requests[t]]
            && open.requests[t].status == Pending && Filed(open)
            && var (after, o) := Decide(open, t, Approve, "", decided);
               && (o == Fine <==> decided <= made + s.ttl) && (o != Fine ==> o == Failed(PastExpiry))
               && (o == Fine && at > made + s.ttl ==> Verify(after, t, c, at).1 == Failed(PastExpiry))
               && (o == Fine && at <= made + s.ttl ==>
                     Verify(after, t, c, at).1
                     == if c.operation.Some? && c.operation != Some(draft.operation) then Failed(OperationMismatch)
                        else if c.parameter.Bound? && c.parameter != draft.parameter then Failed(ParameterMismatch)
                        else if c.target.Bound? && c.target != draft.target then Failed(TargetMismatch)
                        else Fine)
  {
  }

  /** Without storage a restart forgets every request. */
  lemma WithoutStorageNothingReturns(s: Service)
    requires !s.durable
    ensures Reload(s).requests == map[] && forall op: Op :: Step(s, op).log == s.log
  {
  }
}
