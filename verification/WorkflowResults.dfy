/** Theorems about every run of the orchestration graph: the invariant over replan
    epochs, termination with explicit bounds, deadlock freedom, evidence traceability. */
module WorkflowResults {
  import opened Plans
  import opened Dependencies
  import opened PlanValidation
  import opened Recovery
  import opened Review
  import opened Workflow
  import opened WorkflowInvariant

  // ----- The reducer -----

  lemma {:induction false} PutMembers(subtasks: seq<Subtask>, t: Subtask)
    requires Unique(subtasks)
    ensures Unique(Put(subtasks, t))
    ensures forall u :: u in Put(subtasks, t) <==> u == t || (u in subtasks && u.spec.id != t.spec.id)
  {
    if subtasks != [] {
      var head, rest := subtasks[0], subtasks[1..];
      assert subtasks == [head] + rest;
      if head.spec.id == t.spec.id {
        assert forall u :: u in rest ==> u.spec.id != t.spec.id;
      } else {
        PutMembers(rest, t);
        var put := Put(rest, t);
        assert forall u :: u in put ==> u.spec.id != head.spec.id;
        assert Put(subtasks, t) == [head] + put;
      }
    }
  }

  ghost predicate Names(subtasks: seq<Subtask>, id: Id) {
    exists t :: t in subtasks && t.spec.id == id
  }

  /** Merging keeps the right-hand subtasks and those left-hand ones they do not name. */
  lemma {:induction false} MergeMembers(left: seq<Subtask>, right: seq<Subtask>)
    requires Unique(left) && Unique(right)
    ensures Unique(Merge(left, right))
    ensures forall u :: u in Merge(left, right) <==> u in right || (u in left && !Names(right, u.spec.id))
  {
    if right != [] {
      var front, last := right[..|right| - 1], right[|right| - 1];
      assert right == front + [last];
      MergeMembers(left, front);
      PutMembers(Merge(left, front), last);
      forall u
        ensures u in Merge(left, right) <==> u in right || (u in left && !Names(right, u.spec.id))
      {
        assert Names(right, u.spec.id) <==> Names(front, u.spec.id) || u.spec.id == last.spec.id;
        assert u in front ==> u.spec.id != last.spec.id;
      }
    }
  }

  // ----- Adopting a plan -----

  ghost predicate FreshIn(plan: Plan, u: Subtask) {
    u.spec in plan && u == Fresh(u.spec)
  }

  ghost predicate Retired(before: seq<Subtask>, plan: Plan, u: Subtask) {
    exists v :: v in before && v.spec.id !in Ids(plan) && u == v.(superseded := true)
  }

  lemma {:induction false} SupersededMembers(before: seq<Subtask>, plan: Plan)
    requires Unique(before)
    ensures Unique(Superseded(before, plan))
    ensures forall u :: u in Superseded(before, plan) <==> Retired(before, plan, u)
  {
    if before != [] {
      var front, last := before[..|before| - 1], before[|before| - 1];
      assert before == front + [last];
      SupersededMembers(front, plan);
      forall u
        ensures u in Superseded(before, plan) <==> Retired(before, plan, u)
      {
        assert Retired(before, plan, u) <==>
               Retired(front, plan, u) || (last.spec.id !in Ids(plan) && u == last.(superseded := true));
      }
      assert forall u :: u in Superseded(front, plan) ==> u.spec.id != last.spec.id;
    }
  }

  lemma FreshMembers(plan: Plan)
    requires UniqueIds(plan)
    ensures Unique(FreshAll(plan))
    ensures forall u :: u in FreshAll(plan) <==> FreshIn(plan, u)
  {
    forall u | FreshIn(plan, u)
      ensures u in FreshAll(plan)
    {
      var i :| 0 <= i < |plan| && plan[i] == u.spec;
      assert FreshAll(plan)[i] == u;
    }
  }

  lemma BothUnique(a: seq<Subtask>, b: seq<Subtask>)
    requires Unique(a) && Unique(b)
    requires forall u, v :: u in a && v in b ==> u.spec.id != v.spec.id
    ensures Unique(a + b)
  {
    var c := a + b;
    forall i, j | 0 <= i < j < |c|
      ensures c[i].spec.id != c[j].spec.id
    {
      if i < |a| <= j {
        assert a[i] in a && b[j - |a|] in b;
      }
    }
  }

  /** A replanned list: every subtask of the new plan starts afresh, every other one is
      retired, and nothing else remains. */
  lemma ReplannedMembers(before: seq<Subtask>, plan: Plan)
    requires Unique(before) && UniqueIds(plan)
    ensures var now := Merge(before, FreshAll(plan) + Superseded(before, plan));
            Unique(now) && forall u :: u in now <==> FreshIn(plan, u) || Retired(before, plan, u)
  {
    FreshMembers(plan);
    SupersededMembers(before, plan);
    var right := FreshAll(plan) + Superseded(before, plan);
    assert forall u :: FreshIn(plan, u) ==> u.spec.id in Ids(plan);
    BothUnique(FreshAll(plan), Superseded(before, plan));
    MergeMembers(before, right);
    forall u | u in before
      ensures Names(right, u.spec.id)
    {
      if u.spec.id in Ids(plan) {
        var spec :| spec in plan && spec.id == u.spec.id;
        assert FreshIn(plan, Fresh(spec)) && Fresh(spec) in right;
      } else {
        assert Retired(before, plan, u.(superseded := true)) && u.(superseded := true) in right;
      }
    }
  }

  lemma AdoptedMembers(s: State, plan: Plan, complexity: Complexity, reviewRequired: bool)
    requires Unique(s.subtasks) && UniqueIds(plan) && (s.reason == NoReason ==> s.subtasks == [])
    ensures var now := Adopt(s, plan, complexity, reviewRequired).subtasks;
            Unique(now) && forall u :: u in now <==> FreshIn(plan, u) || Retired(s.subtasks, plan, u)
  {
    ReplannedMembers(s.subtasks, plan);
    assert s.subtasks == [] ==> FreshAll(plan) + Superseded(s.subtasks, plan) == FreshAll(plan);
  }

  lemma AdoptKeeps(cfg: Config, s: State, plan: Plan, complexity: Complexity, reviewRequired: bool)
    requires Unique(s.subtasks) && PlanOk(plan) && (s.reason == NoReason ==> Untouched(s)) && s.ending == Running
    requires s.reason != NoReason ==> s.replanCount < REPLAN_LIMIT && s.epochs == s.replanCount + 1
    ensures Inv(cfg, Adopt(s, plan, complexity, reviewRequired))
  {
    var next := Adopt(s, plan, complexity, reviewRequired);
    AdoptedMembers(s, plan, complexity, reviewRequired);
    forall t | t in next.subtasks
      ensures Sound(cfg, next, t)
      ensures !t.superseded ==> t.spec in plan && t.status.Pending?
    {
      assert !t.superseded ==> FreshIn(plan, t);
      assert !t.superseded ==> t.spec.id in Ids(plan);
    }
    forall spec | spec in plan
      ensures ActiveIn(next.subtasks, spec.id)
    {
      assert FreshIn(plan, Fresh(spec));
    }
  }

  lemma ValidIsOk(cfg: Config, plan: Plan, envelope: Option<Envelope>)
    requires Validate(plan, cfg.registry, cfg.tokenBudget, envelope).None?
    ensures PlanOk(plan)
  {
    ValidateAccepts(plan, cfg.registry, cfg.tokenBudget, envelope);
  }

  lemma EmptyPlanOk()
    ensures PlanOk([])
  {
    RankExcludesCycles(GraphOf([]), map[]);
  }

  lemma FallbackOk(cfg: Config, plan: Plan, envelope: Envelope)
    requires FallbackPlan(cfg, plan, envelope).Some?
    ensures PlanOk(FallbackPlan(cfg, plan, envelope).value)
  {
    ValidIsOk(cfg, FallbackPlan(cfg, plan, envelope).value, if cfg.realMode then Some(envelope) else None);
  }

  lemma AdoptNames(s: State)
    ensures forall plan, complexity, reviewRequired :: var next := Adopt(s, plan, complexity, reviewRequired);
              next.plan == plan && next.complexity == complexity && next.reviewRequired == reviewRequired
                  && next.node.Dispatch?
  {
  }

  /** The planner node either stops the run or adopts a valid plan. */
  lemma PlanStepAdopts(cfg: Config, s: State, input: Input)
    ensures var next := PlanStep(cfg, s, input);
            || (next.node.End? && next == Stop(s.(reason := next.reason), next.ending)
                && next.ending != Running && !next.ending.Completed? && next.ending != Raised(MissingKey))
            || (next == Adopt(s, next.plan, next.complexity, next.reviewRequired) && PlanOk(next.plan)
                && (s.reason != NoReason ==> s.replanCount < REPLAN_LIMIT))
  {
    hide ForTask, Validate, SimplePlan, Routed, PlanOk, FallbackPlan, Adopt;
    AdoptNames(s);
    var envelope := ForTask(input.shape, input.complexity, input.tools, cfg.tokenBudget, cfg.maxCalls);
    EmptyPlanOk();
    if Validate(SimplePlan(cfg.tokenBudget), cfg.registry, cfg.tokenBudget, None).None? {
      ValidIsOk(cfg, SimplePlan(cfg.tokenBudget), None);
    }
    if ProposalAccepted(cfg, input.proposal, envelope) {
      ValidIsOk(cfg, Routed(input.proposal.value).value, Some(envelope));
    }
    if Routed(input.fallback).Some? && FallbackPlan(cfg, Routed(input.fallback).value, envelope).Some? {
      FallbackOk(cfg, Routed(input.fallback).value, envelope);
    }
  }

  lemma PlanStepKeeps(cfg: Config, s: State, input: Input)
    requires Inv(cfg, s) && s.node.Planning?
    ensures Inv(cfg, PlanStep(cfg, s, input))
  {
    var next := PlanStep(cfg, s, input);
    PlanStepAdopts(cfg, s, input);
    if next.node.End? {
      CoreCarries(cfg, s, next);
    } else {
      AdoptKeeps(cfg, s, next.plan, next.complexity, next.reviewRequired);
    }
  }

  // ----- Finalize -----

  lemma {:induction false} ActiveMembers(subtasks: seq<Subtask>)
    ensures forall t :: t in ActiveOf(subtasks) <==> t in subtasks && !t.superseded
  {
    if subtasks != [] {
      assert subtasks == [subtasks[0]] + subtasks[1..];
      ActiveMembers(subtasks[1..]);
    }
  }

  lemma {:induction false} CitedMembers(subtasks: seq<Subtask>, e: string)
    ensures e in CitedBy(subtasks) <==> exists t :: t in subtasks && e in t.evidenceRefs
  {
    if subtasks != [] {
      assert subtasks == [subtasks[0]] + subtasks[1..];
      CitedMembers(subtasks[1..], e);
    }
  }

  lemma ReportIsExact(subtasks: seq<Subtask>)
    ensures IndexIsExact(subtasks, Distinct(CitedBy(ActiveOf(subtasks))))
  {
    var active := ActiveOf(subtasks);
    ActiveMembers(subtasks);
    forall e
      ensures e in Distinct(CitedBy(active)) <==> exists t :: t in subtasks && !t.superseded && e in t.evidenceRefs
    {
      CitedMembers(active, e);
    }
  }

  /** `finalize` never fails for an unfinished subtask: only an open approval or an
      incomplete product keeps a finished plan from completing. */
  lemma FinalizeEnds(s: State, input: Input)
    requires AllPassed(s.subtasks) && s.epochs == s.replanCount + 1
    ensures Phase(FinalizeStep(s, input)) && FinalizeStep(s, input).node.End?
    ensures FinalizeStep(s, input).ending == Failed(FinalizeConditionsNotMet) <==> input.pendingApproval
    ensures FinalizeStep(s, input).ending == Failed(CompletionInvalid)
            <==> !input.pendingApproval && !input.productComplete
    ensures FinalizeStep(s, input).ending.Completed? <==> !input.pendingApproval && input.productComplete
  {
    ActiveMembers(s.subtasks);
    ReportIsExact(s.subtasks);
  }

  lemma FinalizeKeeps(cfg: Config, s: State, input: Input)
    requires Inv(cfg, s) && s.node.Finalize?
    ensures Inv(cfg, FinalizeStep(s, input))
  {
    FinalizeEnds(s, input);
    CoreCarries(cfg, s, FinalizeStep(s, input));
  }

  // ----- Every reachable state -----

  lemma StepKeeps(cfg: Config, s: State, input: Input)
    requires Inv(cfg, s)
    ensures Inv(cfg, Step(cfg, s, input))
  {
    match s.node
    case Ingest => CoreCarries(cfg, s, Step(cfg, s, input));
    case Clarify => CoreCarries(cfg, s, Step(cfg, s, input));
    case Planning => PlanStepKeeps(cfg, s, input);
    case Dispatch => DispatchKeeps(cfg, s);
    case Exec(sends) => ExecKeeps(cfg, s, sends, input);
    case Reviewing => ReviewKeeps(cfg, s, input);
    case Finalize => FinalizeKeeps(cfg, s, input);
    case End =>
  }

  /** The epoch invariant holds after every run, whatever the environment answers. */
  lemma {:induction false} RunKeeps(cfg: Config, inputs: seq<Input>)
    ensures Inv(cfg, Run(cfg, inputs))
  {
    if inputs == [] {
      EmptyPlanOk();
    } else {
      RunKeeps(cfg, inputs[..|inputs| - 1]);
      StepKeeps(cfg, Run(cfg, inputs[..|inputs| - 1]), inputs[|inputs| - 1]);
    }
  }

  /** Limit exhaustion always goes through a replan: the node `fail_rework_limit` is
      never entered, and no dependency lookup ever fails. */
  lemma NeverFailsReworkLimit(cfg: Config, inputs: seq<Input>)
    ensures !Run(cfg, inputs).node.FailReworkLimit?
    ensures Run(cfg, inputs).ending != Raised(MissingKey)
  {
    RunKeeps(cfg, inputs);
  }

  lemma RouteIffDone(cfg: Config, s: State)
    requires Routable(cfg, s)
    ensures var node := FollowRoute(s).node;
            && (node.Finalize? <==> s.reason == NoReason && AllPassed(s.subtasks))
            && (!node.Finalize? ==> node.Dispatch? || node.Planning?)
  {
    RouteKeeps(cfg, s);
    if AllPassed(s.subtasks) {
      AnyReadyIsExact(s.subtasks, s.plan, |s.subtasks|);
    }
  }

  /** Deadlock freedom: a review sends the run to `finalize` exactly when it leaves every
      active subtask passed and no reason to replan; otherwise the run goes on working. */
  lemma FinalizeIffDone(cfg: Config, inputs: seq<Input>, input: Input)
    requires Run(cfg, inputs).node.Reviewing? && !input.agentFails
    ensures var reviewed := Reviewed(cfg, Run(cfg, inputs), input); var node := Run(cfg, inputs + [input]).node;
            && (node.Finalize? <==> reviewed.reason == NoReason && AllPassed(reviewed.subtasks))
            && (!node.Finalize? ==> node.Dispatch? || node.Planning?)
  {
    hide Reviewed, FollowRoute, Inv, Routable, AllPassed;
    RunKeeps(cfg, inputs);
    assert (inputs + [input])[..|inputs|] == inputs;
    ReviewedRoutable(cfg, Run(cfg, inputs), input);
    RouteIffDone(cfg, Reviewed(cfg, Run(cfg, inputs), input));
  }

  /** At most three plans are adopted, and within an epoch no subtask is executed more
      than its rework limit plus one times: once on the fast paths, twice in a standard
      and three times in a complex task. */
  lemma BoundedEffort(cfg: Config, inputs: seq<Input>, id: Id)
    ensures var s := Run(cfg, inputs);
            && s.epochs <= REPLAN_LIMIT + 1
            && (id in s.executions <==> ActiveIn(s.subtasks, id))
            && (id in s.executions ==>
                  s.executions[id] <= if s.complexity.Complex? then 3 else if s.complexity.Standard? then 2 else 1)
  {
    RunKeeps(cfg, inputs);
    var s := Run(cfg, inputs);
    if id in s.executions {
      var spec :| spec in s.plan && spec.id == id;
      assert ActiveIn(s.subtasks, spec.id);
      var t :| t in s.subtasks && !t.superseded && t.spec.id == id;
      assert Sound(cfg, s, t);
    }
  }

  /** Within an epoch a passed subtask is never touched again. */
  lemma PassedIsFinal(cfg: Config, inputs: seq<Input>, input: Input, t: Subtask)
    requires t in Run(cfg, inputs).subtasks && !t.superseded && t.status.Passed?
    requires Run(cfg, inputs + [input]).epochs == Run(cfg, inputs).epochs
    ensures t in Run(cfg, inputs + [input]).subtasks
  {
    RunKeeps(cfg, inputs);
    assert (inputs + [input])[..|inputs|] == inputs;
    PassedIsKept(cfg, Run(cfg, inputs), input, t);
  }

  lemma PassedIsKept(cfg: Config, s: State, input: Input, t: Subtask)
    requires Inv(cfg, s) && t in s.subtasks && !t.superseded && t.status.Passed?
    requires Step(cfg, s, input).epochs == s.epochs
    ensures t in Step(cfg, s, input).subtasks
  {
    match s.node
    case Planning => PlanStepAdopts(cfg, s, input);
    case Exec(sends) =>
      ExecEvolves(cfg, s, sends, input);
      EvolvesKeepsPassed(s.subtasks, ExecuteAll(cfg, input, s.subtasks, sends), t);
    case Reviewing =>
      ReviewEvolves(cfg, s, input);
      EvolvesKeepsPassed(s.subtasks, ReviewAll(cfg, s, input), t);
    case _ =>
  }

  /** Evidence traceability: in a completed run everything the report and the active
      claims cite is a recorded evidence or artifact identifier. */
  lemma CompletedIsTraceable(cfg: Config, inputs: seq<Input>)
    requires Run(cfg, inputs).ending.Completed?
    ensures var s := Run(cfg, inputs);
            && (forall e :: e in s.ending.evidenceIndex ==> e in ValidIds(cfg, s))
            && forall t :: t in s.subtasks && !t.superseded ==> t.status.Passed? && Traceable(t, ValidIds(cfg, s))
  {
    RunKeeps(cfg, inputs);
    var s := Run(cfg, inputs);
    forall t | t in s.subtasks && !t.superseded
      ensures t.status.Passed? && Traceable(t, ValidIds(cfg, s))
    {
      assert Sound(cfg, s, t);
    }
    forall e | e in s.ending.evidenceIndex
      ensures e in ValidIds(cfg, s)
    {
      var t :| t in s.subtasks && !t.superseded && e in t.evidenceRefs;
      assert Traceable(t, ValidIds(cfg, s));
    }
  }
}
