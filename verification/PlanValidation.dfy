/** The ten deterministic plan checks, and the planning envelope they run against. */
module PlanValidation {
  import opened Plans
  import opened Dependencies

  const MAX_SUBTASKS: nat := 8

  datatype Complexity = Trivial | Simple | Standard | Complex

  datatype Shape = ReadOnlyShape | AnalysisShape | ChangeShape | WindowsShape | DeliveryShape | DirectShape

  datatype Envelope = Envelope(
    complexity: Complexity,
    shape: Shape,
    allowed: set<Capability>,
    maxSubtasks: nat,
    minSubtasks: nat,
    tools: set<string>,
    tokenBudget: int,
    maxModelCalls: int)

  datatype Agent = Agent(enabled: bool, tools: set<string>)

  type Registry = map<Role, Agent>

  datatype Failure =
    | TooManySubtasks | PlanTooComplex | PlanTooShallow | DuplicateId
    | CapabilityNotAllowed | CapabilityUnknown | RoleMismatch | MissingDependency
    | CyclicDependency | OverBudget
    | MissingOutput | MissingAcceptance | UnknownRole | RoleNotExecutable | RoleDisabled | ToolsNotAllowed

  /** `None` when a check passes, otherwise the code of the raised error. */
  type Outcome = Option<Failure>

  /** `RoleRouter.route`; `None` for a capability outside the enumeration. */
  function Route(capability: Capability): Option<Role> {
    match capability
    case Research => Some(Researcher)
    case Analysis => Some(Researcher)
    case CodeChange => Some(Executor)
    case Verification => Some(Executor)
    case WindowsAction => Some(Executor)
    case _ => None
  }

  /** An absent capability counts as research. */
  function Needed(s: SubtaskSpec): Capability {
    if s.capability.Unspecified? then Research else s.capability
  }

  predicate Executable(role: Role) {
    role.Executor? || role.Researcher?
  }

  function SizeCheck(count: nat, envelope: Option<Envelope>): Outcome {
    if count > MAX_SUBTASKS then Some(TooManySubtasks)
    else if envelope.Some? && count > envelope.value.maxSubtasks then Some(PlanTooComplex)
    else if envelope.Some? && count < envelope.value.minSubtasks then Some(PlanTooShallow)
    else None
  }

  function ShapeCheck(s: SubtaskSpec, ids: set<Id>, envelope: Option<Envelope>): Outcome {
    if envelope.Some? && Needed(s) !in envelope.value.allowed then Some(CapabilityNotAllowed)
    else if envelope.Some? && Route(Needed(s)).None? then Some(CapabilityUnknown)
    else if envelope.Some? && Route(Needed(s)).value != s.role then Some(RoleMismatch)
    else if exists d :: d in s.deps && d !in ids then Some(MissingDependency)
    else None
  }

  function ContractCheck(s: SubtaskSpec, registry: Registry): Outcome {
    if !s.hasOutput then Some(MissingOutput)
    else if !s.hasAcceptance then Some(MissingAcceptance)
    else if s.role !in registry then Some(UnknownRole)
    else if !Executable(s.role) then Some(RoleNotExecutable)
    else if !registry[s.role].enabled then Some(RoleDisabled)
    else if exists t :: t in s.requiredTools && t !in registry[s.role].tools then Some(ToolsNotAllowed)
    else None
  }

  /** The first error a per-subtask check raises, in plan order. */
  function FirstFailure(plan: Plan, check: SubtaskSpec -> Outcome): (r: Outcome)
    ensures r.None? <==> forall s :: s in plan ==> check(s).None?
  {
    if plan == [] then None
    else if check(plan[0]).Some? then check(plan[0])
    else FirstFailure(plan[1..], check)
  }

  /** `validate_plan`: the checks in source order, the first failure wins. */
  ghost function Validate(plan: Plan, registry: Registry, budget: int, envelope: Option<Envelope>): Outcome {
    var ids := Ids(plan);
    if SizeCheck(|plan|, envelope).Some? then SizeCheck(|plan|, envelope)
    else if !UniqueIds(plan) then Some(DuplicateId)
    else
      var shape := FirstFailure(plan, s => ShapeCheck(s, ids, envelope));
      if shape.Some? then shape
      else if !Acyclic(GraphOf(plan)) then Some(CyclicDependency)
      else if TotalBudget(plan) > budget then Some(OverBudget)
      else FirstFailure(plan, s => ContractCheck(s, registry))
  }

  /** What an accepted plan looks like. */
  ghost predicate ValidPlan(plan: Plan, registry: Registry, budget: int, envelope: Option<Envelope>) {
    && |plan| <= MAX_SUBTASKS
    && (envelope.Some? ==> envelope.value.minSubtasks <= |plan| <= envelope.value.maxSubtasks)
    && UniqueIds(plan) && DepsExist(plan) && Acyclic(GraphOf(plan))
    && TotalBudget(plan) <= budget
    && (forall s :: s in plan ==> WellFormed(s, registry) && (envelope.Some? ==> Permitted(s, envelope.value)))
  }

  ghost predicate WellFormed(s: SubtaskSpec, registry: Registry) {
    && s.hasOutput && s.hasAcceptance && Executable(s.role)
    && s.role in registry && registry[s.role].enabled
    && forall t :: t in s.requiredTools ==> t in registry[s.role].tools
  }

  ghost predicate Permitted(s: SubtaskSpec, envelope: Envelope) {
    Needed(s) in envelope.allowed && Route(Needed(s)) == Some(s.role)
  }

  lemma ValidateAccepts(plan: Plan, registry: Registry, budget: int, envelope: Option<Envelope>)
    ensures Validate(plan, registry, budget, envelope).None? <==> ValidPlan(plan, registry, budget, envelope)
  {
    var ids := Ids(plan);
    forall s | s in plan
      ensures ContractCheck(s, registry).None? <==> WellFormed(s, registry)
      ensures ShapeCheck(s, ids, envelope).None? <==>
              (envelope.Some? ==> Permitted(s, envelope.value)) && forall d :: d in s.deps ==> d in ids
    {
    }
    assert (forall s :: s in plan ==> ShapeCheck(s, ids, envelope).None?) ==> DepsExist(plan);
  }

  /** The executable validator, running Kahn's sort for the cycle check. */
  method ValidatePlan(plan: Plan, registry: Registry, budget: int, envelope: Option<Envelope>)
    returns (r: Outcome)
    ensures r == Validate(plan, registry, budget, envelope)
  {
    r := SizeCheck(|plan|, envelope);
    if r.Some? { return; }
    var ids := Ids(plan);
    var unique := HasUniqueIds(plan);
    if !unique { return Some(DuplicateId); }
    r := FirstFailure(plan, s => ShapeCheck(s, ids, envelope));
    if r.Some? { return; }
    assert forall s :: s in plan ==> ShapeCheck(s, ids, envelope).None?;
    var cyclic := AssertAcyclic(plan);
    if cyclic { return Some(CyclicDependency); }
    if TotalBudget(plan) > budget { return Some(OverBudget); }
    r := FirstFailure(plan, s => ContractCheck(s, registry));
  }

  /** The source compares the size of the identifier set with the length of the list. */
  method HasUniqueIds(plan: Plan) returns (unique: bool)
    ensures unique <==> UniqueIds(plan)
  {
    SetSize(plan);
    unique := |Ids(plan)| == |plan|;
  }

  lemma {:induction false} SetSize(plan: Plan)
    ensures |Ids(plan)| <= |plan|
    ensures |Ids(plan)| == |plan| <==> UniqueIds(plan)
  {
    if plan != [] {
      var front, last := plan[..|plan| - 1], plan[|plan| - 1];
      SetSize(front);
      LastIsNew(plan);
      assert plan == front + [last];
      assert Ids(plan) == Ids(front) + {last.id};
    }
  }

  lemma LastIsNew(plan: Plan)
    requires plan != []
    ensures UniqueIds(plan) <==> UniqueIds(plan[..|plan| - 1]) && plan[|plan| - 1].id !in Ids(plan[..|plan| - 1])
  {
    var front, last := plan[..|plan| - 1], plan[|plan| - 1];
    if last.id in Ids(front) {
      var s :| s in front && s.id == last.id;
      var i :| 0 <= i < |front| && plan[i] == s;
    } else {
      forall i | 0 <= i < |front|
        ensures plan[i].id != last.id
      {
        assert front[i] in front;
      }
    }
    if UniqueIds(plan) {
      assert forall i :: 0 <= i < |front| ==> front[i] == plan[i];
    }
  }

  // ----- What each answer means -----

  /** Where capabilities lead: to an executable role, and outside the enumeration nowhere. */
  lemma RoutesToWorkers(c: Capability)
    ensures Route(c) == Some(Researcher) <==> c in {Research, Analysis}
    ensures Route(c) == Some(Executor) <==> c in {CodeChange, Verification, WindowsAction}
    ensures Route(c).None? <==> c.Unspecified? || c.OtherLabel?
  {
  }

  /** An absent label is treated as research in every check. */
  lemma AbsentIsResearch(s: SubtaskSpec, ids: set<Id>, envelope: Option<Envelope>)
    requires s.capability == Unspecified
    ensures Needed(s) == Needed(s.(capability := Research)) == Research
    ensures ShapeCheck(s, ids, envelope) == ShapeCheck(s.(capability := Research), ids, envelope)
  {
  }

  /** The sizes are checked first, the upper limits before the lower one. */
  lemma SizeCodes(plan: Plan, registry: Registry, budget: int, envelope: Option<Envelope>)
    ensures var answer := Validate(plan, registry, budget, envelope);
            && (answer == Some(TooManySubtasks) <==> |plan| > 8)
            && (answer == Some(PlanTooComplex)
                <==> |plan| <= 8 && envelope.Some? && |plan| > envelope.value.maxSubtasks)
            && (answer == Some(PlanTooShallow) <==>
                  && |plan| <= 8 && envelope.Some? && |plan| <= envelope.value.maxSubtasks
                  && |plan| < envelope.value.minSubtasks)
  {
    hide GraphOf, Acyclic, UniqueIds;
    var ids := Ids(plan);
    FirstFailureIsFirst(plan, s => ShapeCheck(s, ids, envelope));
    FirstFailureIsFirst(plan, s => ContractCheck(s, registry));
  }

  lemma {:induction false} FirstFailureIsFirst(plan: Plan, check: SubtaskSpec -> Outcome)
    ensures var r := FirstFailure(plan, check);
            r.Some? ==> exists i :: 0 <= i < |plan| && check(plan[i]) == r && AllPass(plan[..i], check)
  {
    if plan != [] {
      if check(plan[0]).Some? {
        assert AllPass(plan[..0], check);
      } else {
        FirstFailureIsFirst(plan[1..], check);
        var r := FirstFailure(plan[1..], check);
        if r.Some? {
          var i :| 0 <= i < |plan[1..]| && check(plan[1..][i]) == r && AllPass(plan[1..][..i], check);
          assert plan[..i + 1] == [plan[0]] + plan[1..][..i];
          assert check(plan[i + 1]) == r && AllPass(plan[..i + 1], check);
        }
      }
    }
  }

  ghost predicate AllPass(plan: Plan, check: SubtaskSpec -> Outcome) {
    forall s :: s in plan ==> check(s).None?
  }

  /** The sizes are right and no identifier repeats. */
  ghost predicate WellSized(plan: Plan, envelope: Option<Envelope>) {
    && |plan| <= 8 && (envelope.Some? ==> envelope.value.minSubtasks <= |plan| <= envelope.value.maxSubtasks)
    && UniqueIds(plan)
  }

  ghost predicate InPlace(s: SubtaskSpec, ids: set<Id>, envelope: Option<Envelope>) {
    (envelope.Some? ==> Permitted(s, envelope.value)) && forall d :: d in s.deps ==> d in ids
  }

  /** Why a subtask is not in its place. */
  ghost predicate ShapeCode(s: SubtaskSpec, ids: set<Id>, envelope: Option<Envelope>, code: Failure) {
    var need := Needed(s);
    match code
    case CapabilityNotAllowed => envelope.Some? && need !in envelope.value.allowed
    case CapabilityUnknown => envelope.Some? && need in envelope.value.allowed && Route(need).None?
    case RoleMismatch =>
      envelope.Some? && need in envelope.value.allowed && Route(need).Some? && Route(need) != Some(s.role)
    case MissingDependency =>
      (envelope.Some? ==> Permitted(s, envelope.value)) && exists d :: d in s.deps && d !in ids
    case _ => false
  }

  /** Why a subtask is not well-formed. */
  ghost predicate ContractCode(s: SubtaskSpec, registry: Registry, code: Failure) {
    match code
    case MissingOutput => !s.hasOutput
    case MissingAcceptance => s.hasOutput && !s.hasAcceptance
    case UnknownRole => s.hasOutput && s.hasAcceptance && s.role !in registry
    case RoleNotExecutable =>
      s.hasOutput && s.hasAcceptance && s.role in registry && s.role !in {Executor, Researcher}
    case RoleDisabled =>
      && s.hasOutput && s.hasAcceptance && s.role in registry && s.role in {Executor, Researcher}
      && !registry[s.role].enabled
    case ToolsNotAllowed =>
      && s.hasOutput && s.hasAcceptance && s.role in registry && s.role in {Executor, Researcher}
      && registry[s.role].enabled && exists t :: t in s.requiredTools && t !in registry[s.role].tools
    case _ => false
  }

  lemma ShapeCodes(s: SubtaskSpec, ids: set<Id>, envelope: Option<Envelope>)
    ensures var r := ShapeCheck(s, ids, envelope);
            (r.None? <==> InPlace(s, ids, envelope)) && (r.Some? ==> ShapeCode(s, ids, envelope, r.value))
  {
  }

  lemma ContractCodes(s: SubtaskSpec, registry: Registry)
    ensures var r := ContractCheck(s, registry);
            (r.None? <==> WellFormed(s, registry)) && (r.Some? ==> ContractCode(s, registry, r.value))
  {
  }

  /** The subtask at `i` is the first that is not in its place, and the code says why. */
  ghost predicate ShapeFault(plan: Plan, i: nat, envelope: Option<Envelope>, code: Failure)
    requires i < |plan|
  {
    && (forall s :: s in plan[..i] ==> InPlace(s, Ids(plan), envelope))
    && ShapeCode(plan[i], Ids(plan), envelope, code)
  }

  /** The subtask at `i` is the first that is not well-formed, and the code says why. */
  ghost predicate ContractFault(plan: Plan, i: nat, registry: Registry, code: Failure)
    requires i < |plan|
  {
    && (forall s :: s in plan[..i] ==> WellFormed(s, registry))
    && ContractCode(plan[i], registry, code)
  }

  lemma ShapeRefusal(plan: Plan, ids: set<Id>, envelope: Option<Envelope>)
    requires ids == Ids(plan)
    ensures var r := FirstFailure(plan, s => ShapeCheck(s, ids, envelope));
            && (r.None? <==> forall s :: s in plan ==> InPlace(s, ids, envelope))
            && (r.Some? ==> exists i :: 0 <= i < |plan| && ShapeFault(plan, i, envelope, r.value))
  {
    hide ShapeCheck, InPlace, ShapeCode, FirstFailure;
    var check := s => ShapeCheck(s, ids, envelope);
    var r := FirstFailure(plan, check);
    forall s
      ensures check(s).None? <==> InPlace(s, ids, envelope)
    {
      ShapeCodes(s, ids, envelope);
    }
    FirstFailureIsFirst(plan, check);
    if r.Some? {
      var i :| 0 <= i < |plan| && check(plan[i]) == r && AllPass(plan[..i], check);
      ShapeCodes(plan[i], ids, envelope);
      assert ShapeFault(plan, i, envelope, r.value);
    }
  }

  lemma ContractRefusal(plan: Plan, registry: Registry)
    ensures var r := FirstFailure(plan, s => ContractCheck(s, registry));
            && (r.None? <==> forall s :: s in plan ==> WellFormed(s, registry))
            && (r.Some? ==> exists i :: 0 <= i < |plan| && ContractFault(plan, i, registry, r.value))
  {
    hide ContractCheck, WellFormed, ContractCode, FirstFailure;
    var check := s => ContractCheck(s, registry);
    var r := FirstFailure(plan, check);
    forall s
      ensures check(s).None? <==> WellFormed(s, registry)
    {
      ContractCodes(s, registry);
    }
    FirstFailureIsFirst(plan, check);
    if r.Some? {
      var i :| 0 <= i < |plan| && check(plan[i]) == r && AllPass(plan[..i], check);
      ContractCodes(plan[i], registry);
      assert ContractFault(plan, i, registry, r.value);
    }
  }

  /** Every other answer, too, names the first thing that is wrong, in the order of the
      checks and of the plan. */
  lemma RefusalCodes(plan: Plan, registry: Registry, budget: int, envelope: Option<Envelope>)
    requires Validate(plan, registry, budget, envelope).Some?
    ensures var code := Validate(plan, registry, budget, envelope).value; var ids := Ids(plan);
            match code
            case TooManySubtasks => |plan| > 8
            case PlanTooComplex => |plan| <= 8
            case PlanTooShallow => |plan| <= 8
            case DuplicateId =>
              |plan| <= 8 && (envelope.Some? ==> envelope.value.minSubtasks <= |plan| <= envelope.value.maxSubtasks)
              && !UniqueIds(plan)
            case CyclicDependency =>
              && WellSized(plan, envelope) && (forall s :: s in plan ==> InPlace(s, ids, envelope))
              && !Acyclic(GraphOf(plan))
            case OverBudget =>
              && WellSized(plan, envelope) && (forall s :: s in plan ==> InPlace(s, ids, envelope))
              && Acyclic(GraphOf(plan)) && TotalBudget(plan) > budget
            case _ =>
              && WellSized(plan, envelope)
              && ((exists i :: 0 <= i < |plan| && ShapeFault(plan, i, envelope, code))
                  || (&& (forall s :: s in plan ==> InPlace(s, ids, envelope)) && Acyclic(GraphOf(plan))
                      && TotalBudget(plan) <= budget
                      && exists i :: 0 <= i < |plan| && ContractFault(plan, i, registry, code)))
  {
    hide GraphOf, Acyclic, UniqueIds, InPlace, ShapeCheck, ContractCheck, FirstFailure;
    ShapeRefusal(plan, Ids(plan), envelope);
    ContractRefusal(plan, registry);
  }
}
