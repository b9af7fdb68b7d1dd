/** What every reachable state of the orchestration graph satisfies. */
module WorkflowInvariant {
  import opened Plans
  import opened Dependencies
  import opened PlanValidation
  import opened Review
  import opened Workflow

  ghost predicate Unique(subtasks: seq<Subtask>) {
    forall i, j :: 0 <= i < j < |subtasks| ==> subtasks[i].spec.id != subtasks[j].spec.id
  }

  /** A lookup finds the last subtask with the identifier, among the active ones if only
      those count, and fails exactly if there is none. */
  lemma {:induction false} LookupIsExact(subtasks: seq<Subtask>, id: Id, activeOnly: bool)
    ensures var found := Lookup(subtasks, id, activeOnly);
            && (found.None? <==> forall t :: t in subtasks && t.spec.id == id ==> activeOnly && t.superseded)
            && (found.Some? ==>
                  found.value in subtasks && found.value.spec.id == id && !(activeOnly && found.value.superseded))
  {
    if subtasks != [] {
      var n := |subtasks| - 1;
      LookupIsExact(subtasks[..n], id, activeOnly);
      assert subtasks == subtasks[..n] + [subtasks[n]];
    }
  }

  ghost predicate ActiveIn(subtasks: seq<Subtask>, id: Id) {
    exists t :: t in subtasks && !t.superseded && t.spec.id == id
  }

  ghost predicate DepPassed(subtasks: seq<Subtask>, d: Id) {
    exists t :: t in subtasks && !t.superseded && t.spec.id == d && t.status.Passed?
  }

  ghost predicate DepsDone(subtasks: seq<Subtask>, deps: seq<Id>) {
    forall d :: d in deps ==> DepPassed(subtasks, d)
  }

  ghost predicate PlanOk(plan: Plan) {
    UniqueIds(plan) && DepsExist(plan) && Acyclic(GraphOf(plan)) && |plan| <= MAX_SUBTASKS
  }

  /** The active subtasks are exactly the latest plan. */
  ghost predicate CoversPlan(subtasks: seq<Subtask>, plan: Plan) {
    && (forall t :: t in subtasks && !t.superseded ==> t.spec in plan)
    && (forall spec {:trigger ActiveIn(subtasks, spec.id)} :: spec in plan ==> ActiveIn(subtasks, spec.id))
  }

  /** What the record of one active subtask satisfies, `m` being the rework limit and
      `runs` the number of its executions in this epoch. */
  ghost predicate Consistent(t: Subtask, m: nat, valid: set<string>, runs: nat) {
    && t.rework <= m + 1
    && (t.status.Pending? ==> t.rework == 0)
    && (t.status.Executed? || t.status.Passed? ==> t.rework <= m && t.delivery.Some?)
    && (t.status.Passed? ==> Traceable(t, valid))
    && runs == t.rework + if t.status.Executed? || t.status.Passed? then 1 else 0
  }

  /** The facts about one active subtask within the whole state. */
  ghost predicate Sound(cfg: Config, s: State, t: Subtask) {
    !t.superseded ==>
      && t.spec.id in s.executions
      && Consistent(t, MaxRework(s.complexity), ValidIds(cfg, s), s.executions[t.spec.id])
      && (!t.status.Pending? ==> DepsDone(s.subtasks, t.spec.deps))
  }

  ghost predicate WithinLimit(subtasks: seq<Subtask>, m: nat) {
    forall t :: t in subtasks && RejectedNow(t) ==> t.rework <= m
  }

  /** Between rounds nothing awaits review and no subtask is over its limit. */
  ghost predicate Settled(s: State) {
    !HasExecuted(s.subtasks) && WithinLimit(s.subtasks, MaxRework(s.complexity))
  }

  ghost predicate Untouched(s: State) {
    s.subtasks == [] && s.plan == [] && s.reason == NoReason && s.replanCount == 0 && s.epochs == 0
  }

  /** Something was sent, and whatever was sent is waiting with its dependencies passed. */
  ghost predicate SendsReady(subtasks: seq<Subtask>, sends: seq<Id>) {
    && sends != []
    && forall id :: id in sends ==>
         exists t :: t in subtasks && Waiting(t) && t.spec.id == id && DepsDone(subtasks, t.spec.deps)
  }

  ghost predicate AllPassed(subtasks: seq<Subtask>) {
    forall t :: t in subtasks && !t.superseded ==> t.status.Passed?
  }

  ghost predicate HasExecuted(subtasks: seq<Subtask>) {
    exists t :: t in subtasks && !t.superseded && t.status.Executed?
  }

  ghost predicate HasRejected(subtasks: seq<Subtask>) {
    exists t :: t in subtasks && RejectedNow(t)
  }

  ghost predicate HasStartable(subtasks: seq<Subtask>) {
    exists t :: t in subtasks && PendingReady(subtasks, t)
  }

  /** A review finds a delivery, a rejection, or nothing left to send. */
  ghost predicate RoundHappened(s: State) {
    HasExecuted(s.subtasks) || HasRejected(s.subtasks) || !HasStartable(s.subtasks)
  }

  ghost predicate PendingReady(subtasks: seq<Subtask>, t: Subtask) {
    !t.superseded && t.status.Pending? && DepsDone(subtasks, t.spec.deps)
  }

  ghost predicate Phase(s: State) {
    match s.node
    case Ingest => Untouched(s)
    case Clarify => Untouched(s)
    case Planning => if s.reason == NoReason then Untouched(s) else s.epochs == s.replanCount + 1
    case Dispatch => s.reason == NoReason && s.epochs == s.replanCount + 1 && Settled(s)
    case Exec(sends) =>
      s.reason == NoReason && s.epochs == s.replanCount + 1 && Settled(s) && SendsReady(s.subtasks, sends)
    case Reviewing => s.reason == NoReason && s.epochs == s.replanCount + 1 && RoundHappened(s)
    case Finalize => s.epochs == s.replanCount + 1 && AllPassed(s.subtasks)
    case FailReworkLimit => false
    case End =>
      && s.epochs <= s.replanCount + 1
      && s.ending != Running && s.ending != Raised(MissingKey)
      && (s.ending.Completed? ==> AllPassed(s.subtasks) && IndexIsExact(s.subtasks, s.ending.evidenceIndex))
  }

  /** The reported evidence index holds exactly what the active subtasks cite. */
  ghost predicate IndexIsExact(subtasks: seq<Subtask>, index: seq<string>) {
    forall e :: e in index <==> exists t :: t in subtasks && !t.superseded && e in t.evidenceRefs
  }

  ghost predicate Core(cfg: Config, s: State) {
    && PlanOk(s.plan) && Unique(s.subtasks) && CoversPlan(s.subtasks, s.plan)
    && s.replanCount <= REPLAN_LIMIT
    && s.executions.Keys == Ids(s.plan)
    && forall t :: t in s.subtasks ==> Sound(cfg, s, t)
  }

  ghost predicate Inv(cfg: Config, s: State) {
    Core(cfg, s) && Phase(s) && (s.ending == Running <==> !s.node.End?)
  }

  /** The facts depend on these parts of the state only. */
  lemma CoreCarries(cfg: Config, s: State, next: State)
    requires Core(cfg, s)
    requires next.subtasks == s.subtasks && next.plan == s.plan && next.complexity == s.complexity
    requires next.executions == s.executions && next.replanCount == s.replanCount
    requires next.evidence == s.evidence && next.artifacts == s.artifacts
    ensures Core(cfg, next)
  {
    forall t | t in next.subtasks
      ensures Sound(cfg, next, t)
    {
      assert Sound(cfg, s, t);
    }
  }

  // ----- Lookups -----

  lemma {:induction false} LookupFinds(subtasks: seq<Subtask>, t: Subtask, activeOnly: bool)
    requires Unique(subtasks) && t in subtasks && (activeOnly ==> !t.superseded)
    ensures Lookup(subtasks, t.spec.id, activeOnly) == Some(t)
  {
    var front, last := subtasks[..|subtasks| - 1], subtasks[|subtasks| - 1];
    assert subtasks == front + [last];
    var i :| 0 <= i < |subtasks| && subtasks[i] == t;
    if i < |front| {
      assert front[i] == t;
      LookupFinds(front, t, activeOnly);
    }
  }

  /** Dependencies inside the active set are all found, and the answer is exact. */
  lemma {:induction false} DepsPassedIsExact(subtasks: seq<Subtask>, deps: seq<Id>, activeOnly: bool)
    requires Unique(subtasks) && forall d :: d in deps ==> ActiveIn(subtasks, d)
    ensures DepsPassed(subtasks, deps, activeOnly) == Some(DepsDone(subtasks, deps))
  {
    if deps != [] {
      var d, rest := deps[0], deps[1..];
      assert deps == [d] + rest;
      assert ActiveIn(subtasks, d);
      var t :| t in subtasks && !t.superseded && t.spec.id == d;
      LookupFinds(subtasks, t, activeOnly);
      DepsPassedIsExact(subtasks, rest, activeOnly);
      SameId(subtasks, t);
    }
  }

  /** An identifier names one subtask. */
  lemma SameId(subtasks: seq<Subtask>, t: Subtask)
    requires Unique(subtasks) && t in subtasks
    ensures forall u :: u in subtasks && u.spec.id == t.spec.id ==> u == t
  {
    forall u | u in subtasks && u.spec.id == t.spec.id
      ensures u == t
    {
      var i :| 0 <= i < |subtasks| && subtasks[i] == t;
      var j :| 0 <= j < |subtasks| && subtasks[j] == u;
    }
  }

  /** No dependency leaves the active set. */
  lemma DepsStayActive(subtasks: seq<Subtask>, plan: Plan, t: Subtask)
    requires PlanOk(plan) && CoversPlan(subtasks, plan) && t in subtasks && !t.superseded
    ensures forall d :: d in t.spec.deps ==> ActiveIn(subtasks, d)
  {
    forall d | d in t.spec.deps
      ensures ActiveIn(subtasks, d)
    {
      assert t.spec in plan;
      assert d in Ids(plan);
      var spec :| spec in plan && spec.id == d;
    }
  }

  // ----- Dispatch -----

  /** The ready test of the scheduler. */
  ghost predicate Ready(subtasks: seq<Subtask>, t: Subtask) {
    Waiting(t) && DepsDone(subtasks, t.spec.deps)
  }

  /** `route_dispatch` never fails, and sends exactly the ready subtasks, in order. */
  lemma {:induction false} SendsAreReady(subtasks: seq<Subtask>, plan: Plan, n: nat)
    requires PlanOk(plan) && CoversPlan(subtasks, plan) && Unique(subtasks) && n <= |subtasks|
    ensures Sends(subtasks, n).Some?
    ensures forall id :: id in Sends(subtasks, n).value ==>
              exists i :: 0 <= i < n && subtasks[i].spec.id == id && Ready(subtasks, subtasks[i])
    ensures forall i :: 0 <= i < n && Ready(subtasks, subtasks[i]) ==> subtasks[i].spec.id in Sends(subtasks, n).value
    ensures forall a, b :: 0 <= a < b < |Sends(subtasks, n).value| ==>
              Sends(subtasks, n).value[a] != Sends(subtasks, n).value[b]
  {
    if n > 0 {
      hide PlanOk, CoversPlan, DepsDone, DepsPassed;
      SendsAreReady(subtasks, plan, n - 1);
      var t := subtasks[n - 1];
      if Waiting(t) {
        DepsStayActive(subtasks, plan, t);
        DepsPassedIsExact(subtasks, t.spec.deps, false);
        assert t.spec.id !in Sends(subtasks, n - 1).value;
      }
    }
  }

  lemma DispatchKeeps(cfg: Config, s: State)
    requires Inv(cfg, s) && s.node.Dispatch?
    ensures Inv(cfg, DispatchStep(s))
    ensures DispatchStep(s).node.Reviewing? ==> !HasRejected(s.subtasks)
  {
    SendsAreReady(s.subtasks, s.plan, |s.subtasks|);
    var sends := Sends(s.subtasks, |s.subtasks|).value;
    CoreCarries(cfg, s, DispatchStep(s));
    if sends == [] {
      forall t | t in s.subtasks
        ensures !Ready(s.subtasks, t)
      {
        var i :| 0 <= i < |s.subtasks| && s.subtasks[i] == t;
        assert t.spec.id !in sends;
      }
      forall t | t in s.subtasks
        ensures !RejectedNow(t) && !PendingReady(s.subtasks, t)
      {
        assert !Ready(s.subtasks, t) && Sound(cfg, s, t);
      }
    } else {
      forall id | id in sends
        ensures exists t :: t in s.subtasks && Waiting(t) && t.spec.id == id && DepsDone(s.subtasks, t.spec.deps)
      {
        var i :| 0 <= i < |s.subtasks| && s.subtasks[i].spec.id == id && Ready(s.subtasks, s.subtasks[i]);
        assert s.subtasks[i] in s.subtasks;
      }
    }
  }

  // ----- Execution and review: the list changes pointwise -----

  /** A pointwise change that keeps identity, and keeps whatever has passed. */
  ghost predicate Evolves(was: seq<Subtask>, now: seq<Subtask>) {
    |was| == |now| && forall i {:trigger was[i]} {:trigger now[i]} :: 0 <= i < |was| ==>
      && now[i].spec == was[i].spec && now[i].superseded == was[i].superseded
      && (was[i].status.Passed? || was[i].superseded ==> now[i] == was[i])
  }

  lemma EvolvesKeepsShape(was: seq<Subtask>, now: seq<Subtask>, plan: Plan)
    requires Evolves(was, now) && Unique(was) && CoversPlan(was, plan)
    ensures Unique(now) && CoversPlan(now, plan)
  {
    forall t | t in now && !t.superseded
      ensures t.spec in plan
    {
      var i :| 0 <= i < |now| && now[i] == t;
      assert was[i] in was;
    }
    forall spec | spec in plan
      ensures ActiveIn(now, spec.id)
    {
      assert ActiveIn(was, spec.id);
      var t :| t in was && !t.superseded && t.spec.id == spec.id;
      var i :| 0 <= i < |was| && was[i] == t;
      assert now[i] in now;
    }
  }

  lemma EvolvesKeepsPassed(was: seq<Subtask>, now: seq<Subtask>, t: Subtask)
    requires Evolves(was, now) && t in was && t.status.Passed?
    ensures t in now
  {
    var i :| 0 <= i < |was| && was[i] == t;
    assert now[i] == t;
  }

  lemma EvolvesKeepsDone(was: seq<Subtask>, now: seq<Subtask>, deps: seq<Id>)
    requires Evolves(was, now) && DepsDone(was, deps)
    ensures DepsDone(now, deps)
  {
    forall d | d in deps
      ensures DepPassed(now, d)
    {
      assert DepPassed(was, d);
      var t :| t in was && !t.superseded && t.spec.id == d && t.status.Passed?;
      var i :| 0 <= i < |was| && was[i] == t;
      assert now[i] in now;
    }
  }

  lemma ExecEvolves(cfg: Config, s: State, sends: seq<Id>, input: Input)
    requires Unique(s.subtasks) && SendsReady(s.subtasks, sends)
    ensures Evolves(s.subtasks, ExecuteAll(cfg, input, s.subtasks, sends))
    ensures forall i {:trigger s.subtasks[i]} :: 0 <= i < |s.subtasks| && s.subtasks[i].spec.id in sends ==>
              Ready(s.subtasks, s.subtasks[i])
  {
    forall i | 0 <= i < |s.subtasks| && s.subtasks[i].spec.id in sends
      ensures Ready(s.subtasks, s.subtasks[i])
    {
      var t :| t in s.subtasks && Waiting(t) && t.spec.id == s.subtasks[i].spec.id && DepsDone(s.subtasks, t.spec.deps);
      assert s.subtasks[i] in s.subtasks;
      SameId(s.subtasks, t);
    }
  }

  lemma TraceableGrows(t: Subtask, few: set<string>, many: set<string>)
    requires Traceable(t, few) && few <= many
    ensures Traceable(t, many)
  {
  }

  lemma ExecuteConsistent(cfg: Config, input: Input, t: Subtask, m: nat, few: set<string>, many: set<string>, runs: nat)
    requires Consistent(t, m, few, runs) && few <= many
    ensures Waiting(t) && t.rework <= m ==> Consistent(Execute(cfg, input, t), m, many, runs + 1)
    ensures Consistent(t, m, many, runs)
  {
    if t.status.Passed? {
      TraceableGrows(t, few, many);
    }
  }

  lemma ExecKeepsSound(cfg: Config, s: State, sends: seq<Id>, input: Input, i: nat)
    requires Core(cfg, s) && Settled(s) && SendsReady(s.subtasks, sends) && !input.agentFails && i < |s.subtasks|
    ensures Sound(cfg, ExecStep(cfg, s, sends, input), ExecStep(cfg, s, sends, input).subtasks[i])
  {
    var t, next := s.subtasks[i], ExecStep(cfg, s, sends, input);
    assert t in s.subtasks && Sound(cfg, s, t);
    ExecEvolves(cfg, s, sends, input);
    if !t.superseded {
      ExecuteConsistent(cfg, input, t, MaxRework(s.complexity), ValidIds(cfg, s), ValidIds(cfg, next),
                        s.executions[t.spec.id]);
      if t.spec.id in sends || !t.status.Pending? {
        EvolvesKeepsDone(s.subtasks, next.subtasks, t.spec.deps);
      }
    }
  }

  lemma ExecAllSound(cfg: Config, s: State, sends: seq<Id>, input: Input)
    requires Core(cfg, s) && Settled(s) && SendsReady(s.subtasks, sends) && !input.agentFails
    ensures var next := ExecStep(cfg, s, sends, input); forall t :: t in next.subtasks ==> Sound(cfg, next, t)
  {
    var next := ExecStep(cfg, s, sends, input);
    forall t | t in next.subtasks
      ensures Sound(cfg, next, t)
    {
      var i :| 0 <= i < |next.subtasks| && next.subtasks[i] == t;
      ExecKeepsSound(cfg, s, sends, input, i);
    }
  }

  lemma ExecKeepsCore(cfg: Config, s: State, sends: seq<Id>, input: Input)
    requires Core(cfg, s) && Settled(s) && SendsReady(s.subtasks, sends) && !input.agentFails
    ensures Core(cfg, ExecStep(cfg, s, sends, input))
  {
    ExecAllSound(cfg, s, sends, input);
    ExecEvolves(cfg, s, sends, input);
    EvolvesKeepsShape(s.subtasks, ExecStep(cfg, s, sends, input).subtasks, s.plan);
  }

  /** The first subtask sent comes back executed or rejected. */
  lemma ExecLeavesWork(cfg: Config, s: State, sends: seq<Id>, input: Input)
    requires SendsReady(s.subtasks, sends) && !input.agentFails
    ensures var now := ExecStep(cfg, s, sends, input).subtasks; HasExecuted(now) || HasRejected(now)
  {
    var next := ExecStep(cfg, s, sends, input);
    assert sends[0] in sends;
    var t :| t in s.subtasks && Waiting(t) && t.spec.id == sends[0] && DepsDone(s.subtasks, t.spec.deps);
    var i :| 0 <= i < |s.subtasks| && s.subtasks[i] == t;
    assert next.subtasks[i] in next.subtasks;
  }

  lemma ExecKeeps(cfg: Config, s: State, sends: seq<Id>, input: Input)
    requires Inv(cfg, s) && s.node == Exec(sends)
    ensures Inv(cfg, ExecStep(cfg, s, sends, input))
  {
    if input.agentFails {
      CoreCarries(cfg, s, ExecStep(cfg, s, sends, input));
    } else {
      ExecKeepsCore(cfg, s, sends, input);
      ExecLeavesWork(cfg, s, sends, input);
    }
  }

  lemma ReviewEvolves(cfg: Config, s: State, input: Input)
    ensures Evolves(s.subtasks, ReviewAll(cfg, s, input))
  {
  }

  /** A subtask only passes with every cited identifier on record. */
  lemma PassIsTraceable(cfg: Config, s: State, input: Input, t: Subtask)
    ensures VerdictOn(cfg, s, input, t).passes ==> Traceable(t, ValidIds(cfg, s))
  {
    ReviewIsExact(t, ValidIds(cfg, s), input.usedCalls(t.spec.id));
  }

  lemma JudgeConsistent(t: Subtask, v: Verdict, m: nat, valid: set<string>, runs: nat)
    requires Consistent(t, m, valid, runs) && t.status.Executed?
    requires v.passes ==> Traceable(t, valid)
    ensures Consistent(Judge(t, v), m, valid, runs)
  {
  }

  lemma ReviewKeepsSound(cfg: Config, s: State, input: Input, next: State, i: nat)
    requires Core(cfg, s) && i < |s.subtasks| && next.subtasks == ReviewAll(cfg, s, input)
    requires next.complexity == s.complexity && next.executions == s.executions
    requires next.evidence == s.evidence && next.artifacts == s.artifacts
    ensures Sound(cfg, next, next.subtasks[i])
  {
    var t := s.subtasks[i];
    assert t in s.subtasks && Sound(cfg, s, t);
    ReviewEvolves(cfg, s, input);
    if !t.superseded {
      PassIsTraceable(cfg, s, input, t);
      if t.status.Executed? {
        JudgeConsistent(t, VerdictOn(cfg, s, input, t), MaxRework(s.complexity), ValidIds(cfg, s),
                        s.executions[t.spec.id]);
      }
      if !t.status.Pending? {
        EvolvesKeepsDone(s.subtasks, next.subtasks, t.spec.deps);
      }
    }
  }

  lemma ReviewKeepsCore(cfg: Config, s: State, input: Input, next: State)
    requires Core(cfg, s) && next.subtasks == ReviewAll(cfg, s, input)
    requires next.complexity == s.complexity && next.executions == s.executions
    requires next.evidence == s.evidence && next.artifacts == s.artifacts
    requires next.plan == s.plan && next.replanCount == s.replanCount
    ensures Core(cfg, next)
  {
    ReviewEvolves(cfg, s, input);
    EvolvesKeepsShape(s.subtasks, next.subtasks, s.plan);
    forall t | t in next.subtasks
      ensures Sound(cfg, next, t)
    {
      var i :| 0 <= i < |next.subtasks| && next.subtasks[i] == t;
      ReviewKeepsSound(cfg, s, input, next, i);
    }
  }

  // ----- Routing after review -----

  lemma {:induction false} AnyReadyIsExact(subtasks: seq<Subtask>, plan: Plan, n: nat)
    requires PlanOk(plan) && CoversPlan(subtasks, plan) && Unique(subtasks) && n <= |subtasks|
    ensures AnyReady(subtasks, n) == Some(exists i :: 0 <= i < n && PendingReady(subtasks, subtasks[i]))
  {
    if n > 0 {
      AnyReadyIsExact(subtasks, plan, n - 1);
      var t := subtasks[n - 1];
      if !t.superseded && t.status.Pending? {
        DepsStayActive(subtasks, plan, t);
        DepsPassedIsExact(subtasks, t.spec.deps, true);
      }
    }
  }

  /** The unfinished active identifiers. */
  ghost function Unfinished(subtasks: seq<Subtask>): set<Id> {
    set t | t in subtasks && !t.superseded && !t.status.Passed? :: t.spec.id
  }

  /** Deadlock freedom: an unfinished plan with no rejection has a pending subtask
      whose dependencies have all passed, because the validated graph has no cycle. */
  lemma SomethingIsReady(subtasks: seq<Subtask>, plan: Plan) returns (i: nat)
    requires PlanOk(plan) && CoversPlan(subtasks, plan) && Unique(subtasks)
    requires !AllPassed(subtasks)
    requires !HasExecuted(subtasks) && !HasRejected(subtasks)
    ensures i < |subtasks| && PendingReady(subtasks, subtasks[i])
  {
    var g, open := GraphOf(plan), Unfinished(subtasks);
    forall n | n in open
      ensures n in g
    {
      var t :| t in subtasks && !t.superseded && !t.status.Passed? && t.spec.id == n;
      assert t.spec in plan;
    }
    var bad :| bad in subtasks && !bad.superseded && !bad.status.Passed?;
    assert bad.spec.id in open;
    var m := MinimalMember(g, open);
    var t :| t in subtasks && !t.superseded && !t.status.Passed? && t.spec.id == m;
    i :| 0 <= i < |subtasks| && subtasks[i] == t;
    DepsStayActive(subtasks, plan, t);
    var k :| 0 <= k < |plan| && plan[k] == t.spec;
    FindAt(plan, k);
    forall d | d in t.spec.deps
      ensures DepPassed(subtasks, d)
    {
      assert ActiveIn(subtasks, d);
      var u :| u in subtasks && !u.superseded && u.spec.id == d;
      assert d in g[m];
    }
  }

  /** After a review nothing awaits review. */
  lemma AllReviewed(cfg: Config, s: State, input: Input)
    ensures !HasExecuted(ReviewAll(cfg, s, input))
  {
    var now := ReviewAll(cfg, s, input);
    forall t | t in now && !t.superseded
      ensures !t.status.Executed?
    {
      var i :| 0 <= i < |now| && now[i] == t;
    }
  }

  /** Whoever is over the limit has already forced a replan reason. */
  lemma LimitForcesReplan(subtasks: seq<Subtask>, complexity: Complexity, steering: bool)
    requires ReasonAfter(subtasks, complexity, steering) == NoReason
    ensures Exhausted(subtasks, complexity) == [] && WithinLimit(subtasks, MaxRework(complexity))
  {
  }

  /** A reviewed state: nothing awaits review, and without a replan reason nobody is
      over the limit. */
  ghost predicate Decided(s: State) {
    !HasExecuted(s.subtasks) && (s.reason == NoReason ==> NobodyExhausted(s) && Settled(s))
  }

  ghost predicate NobodyExhausted(s: State) {
    Exhausted(s.subtasks, s.complexity) == []
  }

  lemma ReviewedKeeps(cfg: Config, s: State, input: Input)
    requires Core(cfg, s)
    ensures Core(cfg, Reviewed(cfg, s, input)) && Decided(Reviewed(cfg, s, input))
  {
    var next := Reviewed(cfg, s, input);
    ReviewKeepsCore(cfg, s, input, next);
    AllReviewed(cfg, s, input);
    if next.reason == NoReason {
      LimitForcesReplan(next.subtasks, s.complexity, input.steering);
    }
  }

  /** The reviewed state, ready to be routed. */
  ghost predicate Routable(cfg: Config, s: State) {
    Core(cfg, s) && Decided(s) && s.epochs == s.replanCount + 1 && s.ending == Running
  }

  lemma ReviewedRoutable(cfg: Config, s: State, input: Input)
    requires Inv(cfg, s) && s.node.Reviewing?
    ensures Routable(cfg, Reviewed(cfg, s, input))
    ensures Reviewed(cfg, s, input).complexity == s.complexity && Reviewed(cfg, s, input).replanCount == s.replanCount
  {
    ReviewedKeeps(cfg, s, input);
  }

  lemma ReviewKeeps(cfg: Config, s: State, input: Input)
    requires Inv(cfg, s) && s.node.Reviewing?
    ensures Inv(cfg, ReviewStep(cfg, s, input))
  {
    if input.agentFails {
      CoreCarries(cfg, s, ReviewStep(cfg, s, input));
    } else {
      ReviewedRoutable(cfg, s, input);
      RouteKeeps(cfg, Reviewed(cfg, s, input));
    }
  }

  lemma RouteKeeps(cfg: Config, s: State)
    requires Routable(cfg, s)
    ensures Inv(cfg, FollowRoute(s))
  {
    if s.reason == NoReason && !HasRejected(s.subtasks) {
      AnyReadyIsExact(s.subtasks, s.plan, |s.subtasks|);
      if !AllPassed(s.subtasks) {
        var i := SomethingIsReady(s.subtasks, s.plan);
      }
    }
    CoreCarries(cfg, s, FollowRoute(s));
  }
}
