/** The orchestration graph: one shared task state, stepped node by node.
    Model answers, execution results, review verdicts, planner proposals, user
    steering and agent failures are inputs; everything else is decided here. */
module Workflow {
  import opened Plans
  import opened PlanValidation
  import opened Recovery
  import opened Review

  const REPLAN_LIMIT: nat := 2

  datatype Reason = NoReason | NoProgressOn(ids: seq<Id>) | LimitReachedOn(ids: seq<Id>) | UserSteering

  datatype Node = Ingest | Clarify | Planning | Dispatch | Exec(sends: seq<Id>) | Reviewing | Finalize | FailReworkLimit
    | End

  datatype Failure = PlanningInvalid | ReworkLimitExceeded | FinalizeConditionsNotMet | CompletionInvalid | AgentFailure

  /** Exceptions no node handles. */
  datatype Crash = MissingKey | UnknownCapability | SimplePlanRejected

  datatype Ending = Running | Completed(evidenceIndex: seq<string>) | Failed(code: Failure) | Raised(crash: Crash)

  datatype Config = Config(realMode: bool, sandbox: bool, registry: Registry, tokenBudget: int, maxCalls: int)

  /** `epochs` and `executions` are history: adopted plans, and executions per
      subtask since the latest one. */
  datatype State = State(
    subtasks: seq<Subtask>,
    plan: Plan,
    reason: Reason,
    replanCount: nat,
    complexity: Complexity,
    reviewRequired: bool,
    evidence: set<string>,
    artifacts: set<string>,
    node: Node,
    ending: Ending,
    epochs: nat,
    executions: map<Id, nat>)

  /** Everything the environment decides at one step. */
  datatype Input = Input(
    unclear: bool,
    agentFails: bool,
    complexity: Complexity,
    shape: Shape,
    tools: set<string>,
    proposal: Option<Plan>,
    fallback: Plan,
    deliveries: Id -> Delivery,
    newEvidence: set<string>,
    newArtifacts: set<string>,
    usedCalls: Id -> nat,
    verdicts: Id -> Verdict,
    steering: bool,
    pendingApproval: bool,
    productComplete: bool)

  function Initial(): State {
    State([], [], NoReason, 0, Standard, true, {}, {}, Ingest, Running, 0, map[])
  }

  // ----- The subtask list and its reducer -----

  function Lookup(subtasks: seq<Subtask>, id: Id, activeOnly: bool): Option<Subtask> {
    if subtasks == [] then None
    else
      var last := subtasks[|subtasks| - 1];
      if last.spec.id == id && !(activeOnly && last.superseded) then Some(last)
      else Lookup(subtasks[..|subtasks| - 1], id, activeOnly)
  }

  function Put(subtasks: seq<Subtask>, t: Subtask): seq<Subtask> {
    if subtasks == [] then [t]
    else if subtasks[0].spec.id == t.spec.id then [t] + subtasks[1..]
    else [subtasks[0]] + Put(subtasks[1..], t)
  }

  /** `merge_subtasks`: by identifier, keeping the position of known ones. */
  function Merge(left: seq<Subtask>, right: seq<Subtask>): seq<Subtask> {
    if right == [] then left else Put(Merge(left, right[..|right| - 1]), right[|right| - 1])
  }

  function ActiveOf(subtasks: seq<Subtask>): seq<Subtask> {
    if subtasks == [] then []
    else if subtasks[0].superseded then ActiveOf(subtasks[1..])
    else [subtasks[0]] + ActiveOf(subtasks[1..])
  }

  /** `all(by_id[d] ... for d in dependencies)`: stops at the first dependency that has
      not passed; `None` when it meets an unknown identifier first. */
  function DepsPassed(subtasks: seq<Subtask>, deps: seq<Id>, activeOnly: bool): Option<bool> {
    if deps == [] then Some(true)
    else
      match Lookup(subtasks, deps[0], activeOnly)
      case None => None
      case Some(t) => if t.status.Passed? then DepsPassed(subtasks, deps[1..], activeOnly) else Some(false)
  }

  // ----- Planning -----

  function Fresh(spec: SubtaskSpec): Subtask {
    Subtask(spec, Pending, None, [], [], 0, [], false)
  }

  function FreshAll(plan: Plan): seq<Subtask> {
    seq(|plan|, i requires 0 <= i < |plan| => Fresh(plan[i]))
  }

  /** The old subtasks whose identifiers the new plan does not use. */
  function Superseded(subtasks: seq<Subtask>, plan: Plan): seq<Subtask> {
    if subtasks == [] then []
    else
      var rest := Superseded(subtasks[..|subtasks| - 1], plan);
      var last := subtasks[|subtasks| - 1];
      if last.spec.id in Ids(plan) then rest else rest + [last.(superseded := true)]
  }

  function SimplePlan(tokenBudget: int): Plan {
    [SubtaskSpec(Id("st1"), [], Researcher, Research, Research, true, true,
                 ["fixture_repo_lookup"], Max(500, Min(2000, tokenBudget / 4)), 3, false)]
  }

  function Routed(plan: Plan): Option<Plan> {
    if exists s :: s in plan && Route(Needed(s)).None? then None
    else Some(seq(|plan|, i requires 0 <= i < |plan| =>
      plan[i].(role := if Route(Needed(plan[i])).Some? then Route(Needed(plan[i])).value else plan[i].role)))
  }

  function Stop(s: State, ending: Ending): State {
    s.(node := End, ending := ending)
  }

  function Adopt(s: State, plan: Plan, complexity: Complexity, reviewRequired: bool): State {
    var replanning := s.reason != NoReason;
    var added := FreshAll(plan);
    s.(subtasks := Merge(s.subtasks, if replanning then added + Superseded(s.subtasks, plan) else added),
       plan := plan,
       reason := NoReason,
       replanCount := s.replanCount + if replanning then 1 else 0,
       complexity := complexity,
       reviewRequired := reviewRequired,
       node := Dispatch,
       epochs := s.epochs + 1,
       executions := map spec | spec in plan :: spec.id := 0)
  }

  /** The deterministic planner's answer: validated, cut down once if it is only too
      large, and validated again. */
  ghost function FallbackPlan(cfg: Config, plan: Plan, envelope: Envelope): Option<Plan> {
    var used := if cfg.realMode then Some(envelope) else None;
    var verdict := Validate(plan, cfg.registry, cfg.tokenBudget, used);
    if verdict.None? then Some(plan)
    else if verdict == Some(PlanTooComplex)
            && Validate(Simplify(plan, envelope), cfg.registry, cfg.tokenBudget, used).None?
    then Some(Simplify(plan, envelope))
    else None
  }

  ghost predicate ProposalAccepted(cfg: Config, proposal: Option<Plan>, envelope: Envelope) {
    && cfg.realMode && proposal.Some? && Routed(proposal.value).Some?
    && Validate(Routed(proposal.value).value, cfg.registry, cfg.tokenBudget, Some(envelope)).None?
  }

  ghost function PlanStep(cfg: Config, s: State, input: Input): State {
    var envelope := ForTask(input.shape, input.complexity, input.tools, cfg.tokenBudget, cfg.maxCalls);
    var replanning := s.reason != NoReason;
    var reviewed := !envelope.shape.ReadOnlyShape? && !envelope.shape.AnalysisShape?;
    if replanning && s.replanCount >= REPLAN_LIMIT then
      Stop(s.(reason := NoReason), Failed(ReworkLimitExceeded))
    else if input.complexity.Trivial? && !replanning then
      Adopt(s, [], Trivial, false)
    else if input.complexity.Simple? && !replanning then
      if Validate(SimplePlan(cfg.tokenBudget), cfg.registry, cfg.tokenBudget, None).Some?
      then Stop(s, Raised(SimplePlanRejected))
      else Adopt(s, SimplePlan(cfg.tokenBudget), Simple, false)
    else if cfg.realMode && !replanning && input.proposal.Some? && Routed(input.proposal.value).None? then
      Stop(s, Raised(UnknownCapability))
    else if !replanning && ProposalAccepted(cfg, input.proposal, envelope) then
      Adopt(s, Routed(input.proposal.value).value, input.complexity, reviewed)
    else if Routed(input.fallback).None? then
      Stop(s, Raised(UnknownCapability))
    else
      match FallbackPlan(cfg, Routed(input.fallback).value, envelope)
      case None => Stop(s.(reason := NoReason), Failed(PlanningInvalid))
      case Some(plan) => Adopt(s, plan, input.complexity, reviewed)
  }

  // ----- Dispatch and execution -----

  predicate Waiting(t: Subtask) {
    !t.superseded && (t.status.Pending? || t.status.Rejected?)
  }

  /** `route_dispatch` over the first `n` subtasks; `None` for a failed lookup. */
  function Sends(subtasks: seq<Subtask>, n: nat): Option<seq<Id>>
    requires n <= |subtasks|
  {
    if n == 0 then Some([])
    else
      match Sends(subtasks, n - 1)
      case None => None
      case Some(sends) =>
        var t := subtasks[n - 1];
        if !Waiting(t) then Some(sends)
        else
          match DepsPassed(subtasks, t.spec.deps, false)
          case None => None
          case Some(ready) => Some(if ready then sends + [t.spec.id] else sends)
  }

  function DispatchStep(s: State): State {
    match Sends(s.subtasks, |s.subtasks|)
    case None => Stop(s, Raised(MissingKey))
    case Some(sends) => s.(node := if sends == [] then Reviewing else Exec(sends))
  }

  /** `exec_subtask` on one subtask: a missing sandbox or an unsupported role rejects
      it on the spot, otherwise its delivery is recorded. */
  function Execute(cfg: Config, input: Input, t: Subtask): Subtask {
    if (t.spec.role.Executor? && !cfg.sandbox) || !Executable(t.spec.role) then
      var code := if t.spec.role.Executor? then ExecutorUnavailable else UnsupportedRole;
      t.(status := Rejected, rework := t.rework + 1,
         signatures := t.signatures + [Signature(t.spec.id, t.spec.role, None, multiset{code}, multiset{})])
    else
      var d := input.deliveries(t.spec.id);
      t.(status := Executed, delivery := Some(d), evidenceRefs := d.evidenceRefs)
  }

  /** All dispatched subtasks executed, merged by identifier. */
  function ExecuteAll(cfg: Config, input: Input, subtasks: seq<Subtask>, sends: seq<Id>): seq<Subtask> {
    seq(|subtasks|, i requires 0 <= i < |subtasks| =>
      if subtasks[i].spec.id in sends then Execute(cfg, input, subtasks[i]) else subtasks[i])
  }

  function ExecStep(cfg: Config, s: State, sends: seq<Id>, input: Input): State {
    if input.agentFails then Stop(s, Failed(AgentFailure))
    else
      s.(subtasks := ExecuteAll(cfg, input, s.subtasks, sends),
         evidence := s.evidence + input.newEvidence,
         artifacts := s.artifacts + input.newArtifacts,
         executions := map id | id in s.executions :: s.executions[id] + if id in sends then 1 else 0,
         node := Reviewing)
  }

  // ----- Review -----

  function ValidIds(cfg: Config, s: State): set<string> {
    s.evidence + if cfg.sandbox then s.artifacts else {}
  }

  predicate Intermediate(subtasks: seq<Subtask>, id: Id) {
    exists t :: t in subtasks && !t.superseded && id in t.spec.deps
  }

  /** Deterministic issues always reject; the fast path passes without a reviewer;
      otherwise the reviewer decides. */
  function VerdictOn(cfg: Config, s: State, input: Input, t: Subtask): Verdict {
    var issues := Issues(t, ValidIds(cfg, s), input.usedCalls(t.spec.id));
    if issues != [] then Verdict(false, issues, [t.spec.id])
    else if !s.reviewRequired || (Intermediate(s.subtasks, t.spec.id) && cfg.realMode) then Verdict(true, [], [])
    else input.verdicts(t.spec.id)
  }

  function Judge(t: Subtask, v: Verdict): Subtask {
    if v.passes then t.(status := Passed, reviews := t.reviews + [v])
    else t.(status := Rejected, rework := t.rework + 1, reviews := t.reviews + [v],
            signatures := t.signatures
              + [Signature(t.spec.id, t.spec.role, t.delivery, multiset(v.codes), multiset(v.targets))])
  }

  function ReviewOne(cfg: Config, s: State, input: Input, t: Subtask): Subtask {
    if t.superseded || !t.status.Executed? then t else Judge(t, VerdictOn(cfg, s, input, t))
  }

  function ReviewAll(cfg: Config, s: State, input: Input): seq<Subtask> {
    seq(|s.subtasks|, i requires 0 <= i < |s.subtasks| => ReviewOne(cfg, s, input, s.subtasks[i]))
  }

  predicate RejectedNow(t: Subtask) {
    !t.superseded && t.status.Rejected?
  }

  /** The rejected subtasks with a property, in list order. */
  function RejectedWith(subtasks: seq<Subtask>, property: Subtask -> bool): (r: seq<Id>)
    ensures r == [] <==> forall t :: t in subtasks && RejectedNow(t) ==> !property(t)
  {
    if subtasks == [] then []
    else
      (if RejectedNow(subtasks[0]) && property(subtasks[0]) then [subtasks[0].spec.id] else [])
      + RejectedWith(subtasks[1..], property)
  }

  function Stuck(subtasks: seq<Subtask>): seq<Id> {
    RejectedWith(subtasks, (t: Subtask) => NoProgress(t.signatures))
  }

  function Exhausted(subtasks: seq<Subtask>, complexity: Complexity): seq<Id> {
    RejectedWith(subtasks, (t: Subtask) => t.rework > MaxRework(complexity))
  }

  function ReasonAfter(subtasks: seq<Subtask>, complexity: Complexity, steering: bool): Reason {
    if steering then UserSteering
    else if Stuck(subtasks) != [] then NoProgressOn(Stuck(subtasks))
    else if Exhausted(subtasks, complexity) != [] then LimitReachedOn(Exhausted(subtasks, complexity))
    else NoReason
  }

  /** `route_after_review`; `None` for a failed lookup. */
  function RouteAfterReview(s: State): Option<Node> {
    if s.reason != NoReason then Some(Planning)
    else if exists t :: t in s.subtasks && RejectedNow(t) then
      if Exhausted(s.subtasks, s.complexity) == [] then Some(Dispatch)
      else if s.replanCount < REPLAN_LIMIT then Some(Planning)
      else Some(FailReworkLimit)
    else
      match AnyReady(s.subtasks, |s.subtasks|)
      case None => None
      case Some(ready) => Some(if ready then Dispatch else Finalize)
  }

  /** Whether one of the first `n` subtasks is pending with all dependencies passed. */
  function AnyReady(subtasks: seq<Subtask>, n: nat): Option<bool>
    requires n <= |subtasks|
  {
    if n == 0 then Some(false)
    else
      match AnyReady(subtasks, n - 1)
      case None => None
      case Some(found) =>
        var t := subtasks[n - 1];
        if t.superseded || !t.status.Pending? then Some(found)
        else
          match DepsPassed(subtasks, t.spec.deps, true)
          case None => None
          case Some(ready) => Some(found || ready)
  }

  /** The state the review leaves, before routing. */
  function Reviewed(cfg: Config, s: State, input: Input): State {
    var reviewed := ReviewAll(cfg, s, input);
    s.(subtasks := reviewed, reason := ReasonAfter(reviewed, s.complexity, input.steering))
  }

  function FollowRoute(s: State): State {
    match RouteAfterReview(s)
    case None => Stop(s, Raised(MissingKey))
    case Some(node) => s.(node := node)
  }

  function ReviewStep(cfg: Config, s: State, input: Input): State {
    if input.agentFails then Stop(s, Failed(AgentFailure)) else FollowRoute(Reviewed(cfg, s, input))
  }

  // ----- Finalize -----

  function CitedBy(subtasks: seq<Subtask>): seq<string> {
    if subtasks == [] then [] else subtasks[0].evidenceRefs + CitedBy(subtasks[1..])
  }

  /** First occurrences, in order. */
  function Distinct(names: seq<string>): (r: seq<string>)
    ensures forall e :: e in r <==> e in names
  {
    if names == [] then []
    else
      var n := |names| - 1;
      var front := Distinct(names[..n]);
      assert names == names[..n] + [names[n]];
      if names[n] in front then front else front + [names[n]]
  }

  function FinalizeStep(s: State, input: Input): State {
    var active := ActiveOf(s.subtasks);
    if (exists t :: t in active && !t.status.Passed?) || input.pendingApproval then
      Stop(s, Failed(FinalizeConditionsNotMet))
    else if !input.productComplete then Stop(s, Failed(CompletionInvalid))
    else Stop(s, Completed(Distinct(CitedBy(active))))
  }

  // ----- One step and whole runs -----

  ghost function Step(cfg: Config, s: State, input: Input): State {
    match s.node
    case Ingest => s.(node := if input.unclear then Clarify else Planning)
    case Clarify => s.(node := Planning)
    case Planning => PlanStep(cfg, s, input)
    case Dispatch => DispatchStep(s)
    case Exec(sends) => ExecStep(cfg, s, sends, input)
    case Reviewing => ReviewStep(cfg, s, input)
    case Finalize => FinalizeStep(s, input)
    case FailReworkLimit => Stop(s, Failed(ReworkLimitExceeded))
    case End => s
  }

  /** The state after a sequence of environment answers. */
  ghost function Run(cfg: Config, inputs: seq<Input>): State {
    if inputs == [] then Initial()
    else Step(cfg, Run(cfg, inputs[..|inputs| - 1]), inputs[|inputs| - 1])
  }
}
