/** What the nodes of the graph decide, in terms of what they are given: which plan is
    adopted, what an execution leaves, what a reviewer's answer does, and where a review leads. */
module WorkflowDecisions {
  import opened Plans
  import opened Dependencies
  import opened PlanValidation
  import opened Recovery
  import opened Review
  import opened Workflow
  import opened WorkflowInvariant
  import opened WorkflowResults

  // ----- Review -----

  /** What may be cited: recorded evidence, and artifacts if there is a sandbox. */
  lemma CitableIsRecorded(cfg: Config, s: State, e: string)
    ensures e in ValidIds(cfg, s) <==> e in s.evidence || (cfg.sandbox && e in s.artifacts)
  {
  }

  /** A reviewer is asked about a clean delivery, unless none is required or, in real
      mode, another active subtask builds on it. */
  ghost predicate NeedsReviewer(cfg: Config, s: State, t: Subtask) {
    && s.reviewRequired
    && !(cfg.realMode && exists u :: u in s.subtasks && !u.superseded && t.spec.id in u.spec.deps)
  }

  /** The record of a failed review. */
  ghost predicate Sent(was: Subtask, now: Subtask, codes: seq<Code>, targets: seq<Id>) {
    && now.status == Rejected && now.rework == was.rework + 1
    && now.signatures == was.signatures
                         + [Signature(was.spec.id, was.spec.role, was.delivery, multiset(codes), multiset(targets))]
    && now.reviews == was.reviews + [Verdict(false, codes, targets)]
    && now == was.(status := now.status, rework := now.rework, signatures := now.signatures, reviews := now.reviews)
  }

  /** The record of a passed review. */
  ghost predicate Accepted(was: Subtask, now: Subtask, v: Verdict) {
    now == was.(status := Passed, reviews := was.reviews + [v]) && v.passes
  }

  lemma VerdictDecides(cfg: Config, s: State, input: Input, t: Subtask)
    ensures var used, answer := input.usedCalls(t.spec.id), input.verdicts(t.spec.id);
            VerdictOn(cfg, s, input, t)
            == if !Acceptable(t, ValidIds(cfg, s), used)
               then Verdict(false, Issues(t, ValidIds(cfg, s), used), [t.spec.id])
               else if !NeedsReviewer(cfg, s, t) then Verdict(true, [], [])
               else answer
  {
    hide Issues, Acceptable;
    ReviewIsExact(t, ValidIds(cfg, s), input.usedCalls(t.spec.id));
  }

  lemma JudgedByVerdict(t: Subtask, v: Verdict)
    ensures v.passes ==> Accepted(t, Judge(t, v), v)
    ensures !v.passes ==> Sent(t, Judge(t, v), v.codes, v.targets)
  {
  }

  lemma ReviewChangesList(cfg: Config, s: State, input: Input)
    requires s.node.Reviewing? && !input.agentFails
    ensures Step(cfg, s, input).subtasks == ReviewAll(cfg, s, input)
  {
    hide ReviewAll, ReasonAfter;
  }

  /** The review of one delivery: with issues of its own it is sent back with exactly
      these; otherwise the reviewer's answer decides where one is needed, and it passes
      where none is.  Nothing but executed active subtasks changes. */
  lemma ReviewDecides(cfg: Config, s: State, input: Input, i: nat)
    requires s.node.Reviewing? && !input.agentFails && i < |s.subtasks|
    ensures var t, next := s.subtasks[i], Step(cfg, s, input);
            var used, answer := input.usedCalls(t.spec.id), input.verdicts(t.spec.id);
            && |next.subtasks| == |s.subtasks|
            && var now := next.subtasks[i];
               if t.superseded || t.status != Executed then now == t
               else if !Acceptable(t, ValidIds(cfg, s), used)
               then Sent(t, now, Issues(t, ValidIds(cfg, s), used), [t.spec.id])
               else if !NeedsReviewer(cfg, s, t) then Accepted(t, now, Verdict(true, [], []))
               else if answer.passes then Accepted(t, now, answer)
               else Sent(t, now, answer.codes, answer.targets)
  {
    hide Step, Issues, Acceptable, VerdictOn, Judge, NeedsReviewer, Sent, Accepted;
    var t := s.subtasks[i];
    ReviewChangesList(cfg, s, input);
    VerdictDecides(cfg, s, input, t);
    JudgedByVerdict(t, VerdictOn(cfg, s, input, t));
  }

  /** A subtask passes its review if and only if its delivery is acceptable and a reviewer
      who is needed lets it pass; otherwise it goes back with one more rework. */
  lemma PassesIff(cfg: Config, s: State, input: Input, i: nat)
    requires s.node.Reviewing? && !input.agentFails && i < |s.subtasks|
    requires !s.subtasks[i].superseded && s.subtasks[i].status == Executed
    ensures var t := s.subtasks[i]; var now := Step(cfg, s, input).subtasks[i];
            && (now.status == Passed <==>
                  && Acceptable(t, ValidIds(cfg, s), input.usedCalls(t.spec.id))
                  && (NeedsReviewer(cfg, s, t) ==> input.verdicts(t.spec.id).passes))
            && (now.status != Passed ==>
                  now.status == Rejected && now.rework == t.rework + 1 && |now.signatures| == |t.signatures| + 1)
  {
    hide Step, Acceptable, NeedsReviewer;
    ReviewDecides(cfg, s, input, i);
  }

  // ----- Where a review leads -----

  /** The rework limit, by complexity. */
  function Allowed(complexity: Complexity): nat {
    if complexity.Complex? then 2 else if complexity.Standard? then 1 else 0
  }

  /** The last two failures of a rejected active subtask are the same. */
  ghost predicate GotNowhere(subtasks: seq<Subtask>, id: Id) {
    exists t :: t in subtasks && t.spec.id == id && !t.superseded && t.status == Rejected
                && |t.signatures| >= 2 && t.signatures[|t.signatures| - 1] == t.signatures[|t.signatures| - 2]
  }

  /** A rejected active subtask has been reworked more often than allowed. */
  ghost predicate WentTooFar(subtasks: seq<Subtask>, complexity: Complexity, id: Id) {
    exists t ::
      t in subtasks && t.spec.id == id && !t.superseded && t.status == Rejected && t.rework > Allowed(complexity)
  }

  lemma {:induction false} RejectedWithMembers(subtasks: seq<Subtask>, property: Subtask -> bool, id: Id)
    ensures id in RejectedWith(subtasks, property)
            <==> exists t :: t in subtasks && RejectedNow(t) && property(t) && t.spec.id == id
  {
    if subtasks != [] {
      RejectedWithMembers(subtasks[1..], property, id);
      assert subtasks == [subtasks[0]] + subtasks[1..];
    }
  }

  lemma StuckMembers(subtasks: seq<Subtask>, id: Id)
    ensures id in Stuck(subtasks) <==> GotNowhere(subtasks, id)
  {
    RejectedWithMembers(subtasks, (t: Subtask) => NoProgress(t.signatures), id);
    if id in Stuck(subtasks) {
      var t :| t in subtasks && RejectedNow(t) && NoProgress(t.signatures) && t.spec.id == id;
      assert GotNowhere(subtasks, id);
    }
    if GotNowhere(subtasks, id) {
      var t :| t in subtasks && t.spec.id == id && !t.superseded && t.status == Rejected
               && |t.signatures| >= 2 && t.signatures[|t.signatures| - 1] == t.signatures[|t.signatures| - 2];
      assert RejectedNow(t) && NoProgress(t.signatures);
    }
  }

  lemma ExhaustedMembers(subtasks: seq<Subtask>, complexity: Complexity, id: Id)
    ensures id in Exhausted(subtasks, complexity) <==> WentTooFar(subtasks, complexity, id)
  {
    RejectedWithMembers(subtasks, (t: Subtask) => t.rework > MaxRework(complexity), id);
    if WentTooFar(subtasks, complexity, id) {
      var t :| t in subtasks && t.spec.id == id && !t.superseded && t.status == Rejected
               && t.rework > Allowed(complexity);
      assert RejectedNow(t);
    }
    if id in Exhausted(subtasks, complexity) {
      var t :| t in subtasks && RejectedNow(t) && t.rework > MaxRework(complexity) && t.spec.id == id;
      assert WentTooFar(subtasks, complexity, id);
    }
  }

  /** Why a review asks for a new plan: the user steers, else rejected subtasks got nowhere,
      else some went too far, and all those concerned are named; if none, it does not. */
  lemma ReplansExactly(cfg: Config, s: State, input: Input)
    requires s.node.Reviewing? && !input.agentFails
    ensures var next := Step(cfg, s, input);
            var stuck := exists id :: GotNowhere(next.subtasks, id);
            var over := exists id :: WentTooFar(next.subtasks, s.complexity, id);
            && (next.reason == UserSteering <==> input.steering)
            && (next.reason.NoProgressOn? <==> !input.steering && stuck)
            && (next.reason.LimitReachedOn? <==> !input.steering && !stuck && over)
            && (next.reason == NoReason <==> !input.steering && !stuck && !over)
            && (next.reason.NoProgressOn? ==> forall id :: id in next.reason.ids <==> GotNowhere(next.subtasks, id))
            && (next.reason.LimitReachedOn? ==>
                  forall id :: id in next.reason.ids <==> WentTooFar(next.subtasks, s.complexity, id))
  {
    hide GotNowhere, WentTooFar, Stuck, Exhausted, ReviewAll, RouteAfterReview;
    var now := Step(cfg, s, input).subtasks;
    assert now == ReviewAll(cfg, s, input);
    forall id
      ensures id in Stuck(now) <==> GotNowhere(now, id)
      ensures id in Exhausted(now, s.complexity) <==> WentTooFar(now, s.complexity, id)
    {
      StuckMembers(now, id);
      ExhaustedMembers(now, s.complexity, id);
    }
    assert Stuck(now) != [] ==> Stuck(now)[0] in Stuck(now);
    assert Exhausted(now, s.complexity) != [] ==> Exhausted(now, s.complexity)[0] in Exhausted(now, s.complexity);
  }

  /** After every review of a run: a reason to replan leads to the planner, a finished plan
      to `finalize`, and anything else to the next round. */
  lemma ReviewLeads(cfg: Config, inputs: seq<Input>, input: Input)
    requires Run(cfg, inputs).node.Reviewing? && !input.agentFails
    ensures var next := Run(cfg, inputs + [input]);
            next.node == if next.reason != NoReason then Planning
                         else if AllPassed(next.subtasks) then Finalize else Dispatch
  {
    var s := Run(cfg, inputs);
    FinalizeIffDone(cfg, inputs, input);
    assert (inputs + [input])[..|inputs|] == inputs;
    LeadsOn(cfg, s, input);
  }

  lemma LeadsOn(cfg: Config, s: State, input: Input)
    requires s.node.Reviewing? && !input.agentFails
    ensures var next, reviewed := Step(cfg, s, input), Reviewed(cfg, s, input);
            && next.subtasks == reviewed.subtasks && next.reason == reviewed.reason
            && (next.reason != NoReason ==> next.node == Planning)
            && (next.reason == NoReason && next.node == Planning ==> WentTooFarNow(reviewed))
            && (next.reason == NoReason ==> !WentTooFarNow(reviewed))
  {
    hide ReviewAll;
  }

  ghost predicate WentTooFarNow(s: State) {
    Exhausted(s.subtasks, s.complexity) != []
  }

  // ----- Execution -----

  /** One fan-out: a subtask that was sent is delivered by a researcher, or by an executor
      if there is a sandbox, and otherwise sent back with the code of what is missing; the
      others stay as they are, and what was recorded before stays on record. */
  lemma ExecutionDelivers(cfg: Config, s: State, input: Input, i: nat)
    requires s.node.Exec? && !input.agentFails && i < |s.subtasks|
    ensures var t, next := s.subtasks[i], Step(cfg, s, input);
            && next.node == Reviewing && |next.subtasks| == |s.subtasks|
            && next.evidence == s.evidence + input.newEvidence && next.artifacts == s.artifacts + input.newArtifacts
            && var now, d := next.subtasks[i], input.deliveries(t.spec.id);
               if t.spec.id !in s.node.sends then now == t
               else if t.spec.role == Researcher || (t.spec.role == Executor && cfg.sandbox)
               then now == t.(status := Executed, delivery := Some(d), evidenceRefs := d.evidenceRefs)
               else
                 && now.status == Rejected && now.rework == t.rework + 1
                 && now == t.(status := now.status, rework := now.rework, signatures := now.signatures)
                 && now.signatures == t.signatures
                      + [Signature(t.spec.id, t.spec.role, None,
                                   multiset{if t.spec.role == Executor then ExecutorUnavailable else UnsupportedRole},
                                   multiset{})]
  {
  }

  /** An agent that fails ends the run, whatever it was about to do. */
  lemma AgentFailureEnds(cfg: Config, s: State, input: Input)
    requires (s.node.Exec? || s.node.Reviewing?) && input.agentFails
    ensures Step(cfg, s, input) == s.(node := End, ending := Failed(AgentFailure))
  {
  }

  // ----- Planning -----

  /** The plan with the roles its capabilities are routed to. */
  ghost predicate RoutedAs(plan: Plan, routed: Plan) {
    |plan| == |routed| && forall i :: 0 <= i < |plan| ==>
      && Route(Needed(plan[i])).Some?
      && routed[i] == plan[i].(role := Route(Needed(plan[i])).value)
  }

  lemma RoutedIsExact(plan: Plan)
    ensures Routed(plan).Some? <==> forall s :: s in plan ==> Route(Needed(s)).Some?
    ensures Routed(plan).Some? ==> RoutedAs(plan, Routed(plan).value)
  {
  }

  /** Where an adopted plan comes from. */
  datatype Origin = Proposed | FromFallback | CutDown

  ghost predicate Acceptance(cfg: Config, plan: Plan, envelope: Envelope) {
    ValidPlan(plan, cfg.registry, cfg.tokenBudget, if cfg.realMode then Some(envelope) else None)
  }

  /** Whether the planner's own proposal can be adopted: in real mode, in the first round,
      if it is valid within the envelope. */
  ghost predicate Adoptable(cfg: Config, s: State, input: Input, envelope: Envelope) {
    && cfg.realMode && s.reason == NoReason && input.proposal.Some? && Routed(input.proposal.value).Some?
    && ValidPlan(Routed(input.proposal.value).value, cfg.registry, cfg.tokenBudget, Some(envelope))
  }

  /** A real-mode plan whose size alone is too large for the envelope. */
  ghost predicate OnlyTooLarge(cfg: Config, plan: Plan, envelope: Envelope) {
    cfg.realMode && envelope.maxSubtasks < |plan| <= 8
  }

  /** Which plan is adopted from this origin, if any. */
  ghost predicate Offers(cfg: Config, s: State, input: Input, envelope: Envelope, origin: Origin, plan: Plan) {
    match origin
    case Proposed => Adoptable(cfg, s, input, envelope) && RoutedAs(input.proposal.value, plan)
    case FromFallback =>
      !Adoptable(cfg, s, input, envelope) && RoutedAs(input.fallback, plan) && Acceptance(cfg, plan, envelope)
    case CutDown =>
      && !Adoptable(cfg, s, input, envelope) && Routed(input.fallback).Some?
      && !Acceptance(cfg, Routed(input.fallback).value, envelope)
      && OnlyTooLarge(cfg, Routed(input.fallback).value, envelope)
      && plan == Simplify(Routed(input.fallback).value, envelope) && Acceptance(cfg, plan, envelope)
  }

  /** The envelope of the task. */
  ghost function EnvelopeOf(cfg: Config, input: Input): Envelope {
    ForTask(input.shape, input.complexity, input.tools, cfg.tokenBudget, cfg.maxCalls)
  }

  /** The full planner: neither a fast path nor out of replans. */
  ghost predicate PlansFully(s: State, input: Input) {
    if s.reason == NoReason then input.complexity.Standard? || input.complexity.Complex?
    else s.replanCount < 2
  }

  lemma RoutedIsUnique(plan: Plan, routed: Plan)
    requires RoutedAs(plan, routed)
    ensures Routed(plan) == Some(routed)
  {
    forall s | s in plan
      ensures Route(Needed(s)).Some?
    {
      var i :| 0 <= i < |plan| && plan[i] == s;
    }
    assert Routed(plan).value == routed;
  }

  lemma TooLargeIsExact(cfg: Config, plan: Plan, envelope: Envelope)
    ensures var used := if cfg.realMode then Some(envelope) else None;
            Validate(plan, cfg.registry, cfg.tokenBudget, used) == Some(PlanTooComplex)
            <==> OnlyTooLarge(cfg, plan, envelope)
  {
    SizeCodes(plan, cfg.registry, cfg.tokenBudget, if cfg.realMode then Some(envelope) else None);
  }

  /** The deterministic planner's plan, cut down or not. */
  lemma FallbackIsExact(cfg: Config, plan: Plan, envelope: Envelope)
    ensures var cut := Simplify(plan, envelope); var found := FallbackPlan(cfg, plan, envelope);
            found == if Acceptance(cfg, plan, envelope) then Some(plan)
                     else if OnlyTooLarge(cfg, plan, envelope) && Acceptance(cfg, cut, envelope) then Some(cut)
                     else None
  {
    hide Validate, ValidPlan, Simplify, OnlyTooLarge;
    var used := if cfg.realMode then Some(envelope) else None;
    ValidateAccepts(plan, cfg.registry, cfg.tokenBudget, used);
    ValidateAccepts(Simplify(plan, envelope), cfg.registry, cfg.tokenBudget, used);
    TooLargeIsExact(cfg, plan, envelope);
  }

  /** The full planner adopts the proposal if it may, else the deterministic plan as it is
      if that is valid, else its cut if it is only too large; it ends the run exactly if
      there is none of these, and every adopted plan is valid within the envelope of the
      task in real mode, and without one in fake mode. */
  lemma PlannerAnswers(cfg: Config, s: State, input: Input)
    requires s.node.Planning? && s.ending == Running && PlansFully(s, input)
    ensures var next, envelope := Step(cfg, s, input), EnvelopeOf(cfg, input);
            if next.node.Dispatch? then
              && (exists origin :: Offers(cfg, s, input, envelope, origin, next.plan))
              && Acceptance(cfg, next.plan, envelope) && next.complexity == input.complexity
              && (next.reviewRequired <==> envelope.shape !in {ReadOnlyShape, AnalysisShape})
            else
              && next.node.End? && next.subtasks == s.subtasks
              && next.ending == (if Unroutable(cfg, s, input)
                                    || (!Adoptable(cfg, s, input, envelope) && Routed(input.fallback).None?)
                                 then Raised(UnknownCapability) else Failed(PlanningInvalid))
              && forall origin, plan :: !Offers(cfg, s, input, envelope, origin, plan) || Unroutable(cfg, s, input)
  {
    hide ForTask, Validate, Simplify, Routed, FallbackPlan, Acceptance, OnlyTooLarge, ValidPlan, RoutedAs, Adopt;
    var envelope := EnvelopeOf(cfg, input);
    AdoptNames(s);
    if input.proposal.Some? {
      RoutedIsExact(input.proposal.value);
      if Routed(input.proposal.value).Some? {
        ValidateAccepts(Routed(input.proposal.value).value, cfg.registry, cfg.tokenBudget, Some(envelope));
      }
    }
    RoutedIsExact(input.fallback);
    if Routed(input.fallback).Some? { FallbackIsExact(cfg, Routed(input.fallback).value, envelope); }
    OffersFrom(cfg, s, input, envelope);
    var next := Step(cfg, s, input);
    if next.node.Dispatch? {
      var origin := if Adoptable(cfg, s, input, envelope) then Proposed
                    else if Acceptance(cfg, Routed(input.fallback).value, envelope) then FromFallback else CutDown;
      assert Offers(cfg, s, input, envelope, origin, next.plan);
    }
  }

  /** In real mode a first-round proposal with an unknown capability ends the run at once. */
  ghost predicate Unroutable(cfg: Config, s: State, input: Input) {
    cfg.realMode && s.reason == NoReason && input.proposal.Some? && Routed(input.proposal.value).None?
  }

  /** What each origin offers is one definite plan. */
  lemma OffersFrom(cfg: Config, s: State, input: Input, envelope: Envelope)
    ensures forall plan :: Offers(cfg, s, input, envelope, Proposed, plan) ==>
              Adoptable(cfg, s, input, envelope) && plan == Routed(input.proposal.value).value
    ensures forall plan :: Offers(cfg, s, input, envelope, FromFallback, plan) ==>
              Routed(input.fallback) == Some(plan)
    ensures Adoptable(cfg, s, input, envelope) ==>
              Acceptance(cfg, Routed(input.proposal.value).value, envelope)
  {
    forall plan | Offers(cfg, s, input, envelope, Proposed, plan)
      ensures plan == Routed(input.proposal.value).value
    {
      RoutedIsUnique(input.proposal.value, plan);
    }
    forall plan | Offers(cfg, s, input, envelope, FromFallback, plan)
      ensures Routed(input.fallback) == Some(plan)
    {
      RoutedIsUnique(input.fallback, plan);
    }
  }

  /** The fast paths, and the end of replanning. */
  lemma ShortPaths(cfg: Config, s: State, input: Input)
    requires s.node.Planning? && !PlansFully(s, input)
    ensures var next := Step(cfg, s, input);
            if s.reason != NoReason then next.node.End? && next.ending == Failed(ReworkLimitExceeded)
            else if input.complexity.Trivial? then next.node.Dispatch? && next.plan == [] && !next.reviewRequired
            else if ValidPlan(SimplePlan(cfg.tokenBudget), cfg.registry, cfg.tokenBudget, None)
            then next.node.Dispatch? && next.plan == SimplePlan(cfg.tokenBudget) && !next.reviewRequired
            else next.node.End? && next.ending == Raised(SimplePlanRejected)
  {
    hide ForTask, Validate, SimplePlan, ValidPlan, FallbackPlan, Routed;
    ValidateAccepts(SimplePlan(cfg.tokenBudget), cfg.registry, cfg.tokenBudget, None);
  }

  /** The simple path needs 500 tokens: with less, the exception of its own plan's
      validation ends the run unhandled. */
  lemma SimplePlanNeedsTokens(budget: int)
    ensures ValidPlan(SimplePlan(budget), DEFAULT_REGISTRY, budget, None) <==> budget >= 500
    ensures forall t :: t in SimplePlan(budget) ==>
              && t.role == Researcher && t.tokenBudget <= 2000
              && t.requiredTools == ["fixture_repo_lookup"] && t.deps == []
  {
    var plan := SimplePlan(budget);
    assert plan[1..] == [] && TotalBudget(plan[1..]) == 0 && TotalBudget(plan) == plan[0].tokenBudget;
    assert BackwardDeps(plan);
    BackwardDepsAcyclic(plan);
  }

  /** How large an adopted real-mode plan is. */
  lemma PlanSizes(cfg: Config, s: State, input: Input)
    requires s.node.Planning? && s.ending == Running && PlansFully(s, input) && cfg.realMode
    requires Step(cfg, s, input).node.Dispatch?
    ensures var n := |Step(cfg, s, input).plan|;
            var few := input.shape in {ReadOnlyShape, AnalysisShape, DirectShape};
            && (input.complexity.Standard? ==> 2 <= n <= if few then 2 else 4)
            && (input.complexity.Complex? ==> 3 <= n <= if few then 3 else 6)
  {
    hide Step;
    PlannerAnswers(cfg, s, input);
  }

  /** What an adopted real-mode plan may do: change code only for a change or a delivery,
      act on the desktop only for such a task. */
  lemma PlanCapabilities(cfg: Config, s: State, input: Input, t: SubtaskSpec)
    requires s.node.Planning? && s.ending == Running && PlansFully(s, input) && cfg.realMode
    requires Step(cfg, s, input).node.Dispatch? && t in Step(cfg, s, input).plan
    ensures t.capability == CodeChange ==> input.shape in {ChangeShape, DeliveryShape}
    ensures t.capability == WindowsAction ==> input.shape == WindowsShape
    ensures t.capability == Verification ==> input.shape in {ChangeShape, DeliveryShape, WindowsShape}
    ensures t.capability == Analysis ==> input.shape == AnalysisShape
    ensures input.shape in {ReadOnlyShape, AnalysisShape, DirectShape} && !input.complexity.Trivial? ==>
              t.role == Researcher
    ensures t.role == Researcher <==> t.capability in {Research, Analysis, Unspecified}
  {
    hide Step;
    PlannerAnswers(cfg, s, input);
    assert Permitted(t, EnvelopeOf(cfg, input));
  }

  // ----- Whole runs -----

  /** The first visits: an unclear goal is clarified once, then planned. */
  lemma FirstVisits(cfg: Config, a: Input, b: Input)
    ensures Run(cfg, [a]).node == if a.unclear then Clarify else Planning
    ensures a.unclear ==> Run(cfg, [a, b]).node == Planning
  {
    assert [a][..0] == [] && [a, b][..1] == [a];
  }

  ghost predicate OnlyResearchers(subtasks: seq<Subtask>) {
    forall t :: t in subtasks ==> t.spec.role == Researcher
  }

  /** A task that never classifies as more than research or analysis. */
  ghost predicate ReadOnlyTask(input: Input) {
    input.shape in {ReadOnlyShape, AnalysisShape} || (input.shape == DirectShape && !input.complexity.Trivial?)
  }

  /** In real mode no run of a read-only task ever has a subtask for the executor, whatever
      the planner proposes and however often it replans. */
  lemma {:induction false} ReadOnlyStaysReadOnly(cfg: Config, inputs: seq<Input>)
    requires cfg.realMode && forall i :: 0 <= i < |inputs| ==> ReadOnlyTask(inputs[i])
    ensures OnlyResearchers(Run(cfg, inputs).subtasks)
  {
    if inputs != [] {
      hide Step, OnlyResearchers, Inv;
      var n := |inputs| - 1;
      ReadOnlyStaysReadOnly(cfg, inputs[..n]);
      RunKeeps(cfg, inputs[..n]);
      if Run(cfg, inputs[..n]).node.Planning? {
        PlanningStaysReadOnly(cfg, Run(cfg, inputs[..n]), inputs[n]);
      } else {
        OthersKeepRoles(cfg, Run(cfg, inputs[..n]), inputs[n]);
      }
    } else {
      assert Initial().subtasks == [];
    }
  }

  ghost predicate SameSpecs(a: seq<Subtask>, b: seq<Subtask>) {
    |a| == |b| && forall i :: 0 <= i < |a| ==> a[i].spec == b[i].spec
  }

  lemma SameSpecsKeep(a: seq<Subtask>, b: seq<Subtask>)
    requires SameSpecs(a, b) && OnlyResearchers(a)
    ensures OnlyResearchers(b)
  {
    forall t | t in b
      ensures t.spec.role == Researcher
    {
      var i :| 0 <= i < |b| && b[i] == t;
      assert a[i] in a;
    }
  }

  lemma OthersKeepRoles(cfg: Config, s: State, input: Input)
    requires !s.node.Planning? && OnlyResearchers(s.subtasks)
    ensures OnlyResearchers(Step(cfg, s, input).subtasks)
  {
    hide OnlyResearchers, ReviewAll, ExecuteAll, Sends, ActiveOf;
    match s.node
    case Exec(sends) =>
      SpecsExecuted(cfg, s, sends, input);
      SameSpecsKeep(s.subtasks, ExecuteAll(cfg, input, s.subtasks, sends));
    case Reviewing =>
      ReviewEvolves(cfg, s, input);
      SameSpecsKeep(s.subtasks, ReviewAll(cfg, s, input));
    case _ =>
  }

  lemma SpecsExecuted(cfg: Config, s: State, sends: seq<Id>, input: Input)
    ensures SameSpecs(s.subtasks, ExecuteAll(cfg, input, s.subtasks, sends))
  {
  }

  lemma PlanningStaysReadOnly(cfg: Config, s: State, input: Input)
    requires Inv(cfg, s) && s.node.Planning? && OnlyResearchers(s.subtasks) && cfg.realMode && ReadOnlyTask(input)
    ensures OnlyResearchers(Step(cfg, s, input).subtasks)
  {
    hide PlanStep, Adopt, Validate, ValidPlan;
    var next := Step(cfg, s, input);
    PlanStepAdopts(cfg, s, input);
    AdoptNames(s);
    if next.node.Dispatch? {
      AdoptedMembers(s, next.plan, next.complexity, next.reviewRequired);
      forall t | t in next.subtasks
        ensures t.spec.role == Researcher
      {
        if FreshIn(next.plan, t) { PlannedIsResearch(cfg, s, input, t.spec); }
      }
    }
  }

  lemma PlannedIsResearch(cfg: Config, s: State, input: Input, t: SubtaskSpec)
    requires s.node.Planning? && s.ending == Running && cfg.realMode && ReadOnlyTask(input)
    requires Step(cfg, s, input).node.Dispatch? && t in Step(cfg, s, input).plan
    ensures t.role == Researcher
  {
    hide Step;
    if PlansFully(s, input) {
      PlannerAnswers(cfg, s, input);
      assert Permitted(t, EnvelopeOf(cfg, input));
    } else {
      ShortPaths(cfg, s, input);
      SimplePlanNeedsTokens(cfg.tokenBudget);
    }
  }

  // ----- The report -----

  lemma {:induction false} DistinctInOrder(names: seq<string>, i: nat, j: nat)
    requires i < j < |Distinct(names)|
    ensures exists k :: 0 <= k < |names| && names[k] == Distinct(names)[i] && Distinct(names)[j] !in names[..k + 1]
  {
    var n, all := |names| - 1, Distinct(names);
    var front := Distinct(names[..n]);
    assert names == names[..n] + [names[n]];
    if j < |front| {
      DistinctInOrder(names[..n], i, j);
      var k :| 0 <= k < n && names[..n][k] == front[i] && front[j] !in names[..n][..k + 1];
      assert names[..k + 1] == names[..n][..k + 1];
    } else {
      assert all[i] == front[i] && front[i] in names[..n];
      var k :| 0 <= k < n && names[..n][k] == front[i];
      assert forall x :: x in names[..k + 1] ==> x in names[..n];
    }
  }

  /** Identifier `e` is cited by an active subtask before any cites `f`, or by the same one earlier. */
  ghost predicate CitedBefore(subtasks: seq<Subtask>, e: string, f: string) {
    exists i, k :: 0 <= i < |subtasks| && !subtasks[i].superseded && 0 <= k < |subtasks[i].evidenceRefs|
                   && subtasks[i].evidenceRefs[k] == e && f !in subtasks[i].evidenceRefs[..k + 1]
                   && forall h :: 0 <= h < i && !subtasks[h].superseded ==> f !in subtasks[h].evidenceRefs
  }

  /** What one more subtask in front adds to the citations. */
  lemma CitedCons(t: Subtask, rest: seq<Subtask>)
    ensures CitedBy(ActiveOf([t] + rest)) == (if t.superseded then [] else t.evidenceRefs) + CitedBy(ActiveOf(rest))
  {
    assert ([t] + rest)[1..] == rest;
    if t.superseded {
      assert [] + CitedBy(ActiveOf(rest)) == CitedBy(ActiveOf(rest));
    } else {
      assert ([t] + ActiveOf(rest))[1..] == ActiveOf(rest);
    }
  }

  lemma NothingCited()
    ensures CitedBy(ActiveOf([])) == []
  {
  }

  lemma CitedLater(t: Subtask, rest: seq<Subtask>, e: string, f: string)
    requires CitedBefore(rest, e, f) && (t.superseded || f !in t.evidenceRefs)
    ensures CitedBefore([t] + rest, e, f)
  {
    var i, k :| 0 <= i < |rest| && !rest[i].superseded && 0 <= k < |rest[i].evidenceRefs|
                && rest[i].evidenceRefs[k] == e && f !in rest[i].evidenceRefs[..k + 1]
                && forall h :: 0 <= h < i && !rest[h].superseded ==> f !in rest[h].evidenceRefs;
    var all := [t] + rest;
    assert all[i + 1] == rest[i];
    forall h | 0 <= h < i + 1 && !all[h].superseded
      ensures f !in all[h].evidenceRefs
    {
      if h > 0 { assert all[h] == rest[h - 1]; }
    }
  }

  lemma CitedFirst(t: Subtask, rest: seq<Subtask>, e: string, f: string, k: nat)
    requires !t.superseded && k < |t.evidenceRefs| && t.evidenceRefs[k] == e && f !in t.evidenceRefs[..k + 1]
    ensures CitedBefore([t] + rest, e, f)
  {
    assert ([t] + rest)[0] == t;
  }

  lemma SumFirst(a: seq<string>, b: seq<string>, k: nat, f: string)
    requires k < |a + b| && f !in (a + b)[..k + 1]
    ensures k < |a| ==> (a + b)[k] == a[k] && f !in a[..k + 1]
    ensures k >= |a| ==> (a + b)[k] == b[k - |a|] && f !in a && f !in b[..k - |a| + 1]
  {
    if k < |a| {
      assert (a + b)[..k + 1] == a[..k + 1];
    } else {
      assert (a + b)[..k + 1] == a + b[..k - |a| + 1];
    }
  }

  lemma {:induction false} FirstCitation(subtasks: seq<Subtask>, e: string, f: string, k: nat)
    requires var cited := CitedBy(ActiveOf(subtasks)); k < |cited| && cited[k] == e && f !in cited[..k + 1]
    ensures CitedBefore(subtasks, e, f)
  {
    hide CitedBefore, ActiveOf, CitedBy;
    if subtasks == [] {
      NothingCited();
    } else {
      var t, rest := subtasks[0], subtasks[1..];
      assert subtasks == [t] + rest;
      CitedCons(t, rest);
      var refs := if t.superseded then [] else t.evidenceRefs;
      SumFirst(refs, CitedBy(ActiveOf(rest)), k, f);
      if k < |refs| {
        CitedFirst(t, rest, e, f, k);
      } else {
        FirstCitation(rest, e, f, k - |refs|);
        CitedLater(t, rest, e, f);
      }
    }
  }

  /** The report of a completed run names every identifier once, in the order in which the
      active subtasks first cite them. */
  lemma ReportInOrder(cfg: Config, s: State, input: Input, i: nat, j: nat)
    requires s.node.Finalize? && Step(cfg, s, input).ending.Completed?
    requires i < j < |Step(cfg, s, input).ending.evidenceIndex|
    ensures var index := Step(cfg, s, input).ending.evidenceIndex;
            index[i] != index[j] && CitedBefore(s.subtasks, index[i], index[j])
  {
    var cited := CitedBy(ActiveOf(s.subtasks));
    DistinctInOrder(cited, i, j);
    var index := Distinct(cited);
    var k :| 0 <= k < |cited| && cited[k] == index[i] && index[j] !in cited[..k + 1];
    assert cited[..k + 1][k] == index[i];
    FirstCitation(s.subtasks, index[i], index[j], k);
  }
}
