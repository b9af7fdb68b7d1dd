/** Plans and subtask specifications: the values a planner proposes and every
    other component passes around. */
module Plans {

  /** An identifier, compared as a whole. */
  datatype Id = Id(name: string)

  datatype Option<+T> = None | Some(value: T)

  function Min(a: int, b: int): int { if a <= b then a else b }
  function Max(a: int, b: int): int { if a >= b then a else b }

  datatype Role = Supervisor | Planner | Researcher | Executor | Reviewer | OtherRole(name: string)

  /** A capability label; `Unspecified` is the absent one. */
  datatype Capability = Research | Analysis | CodeChange | Verification | WindowsAction | Unspecified
    | OtherLabel(name: string)

  /** The specification part of a subtask.  `verificationText` stands for "the
      title, objective, output or acceptance text holds a verification marker". */
  datatype SubtaskSpec = SubtaskSpec(
    id: Id,
    deps: seq<Id>,
    role: Role,
    capability: Capability,
    taskType: Capability,
    hasOutput: bool,
    hasAcceptance: bool,
    requiredTools: seq<string>,
    tokenBudget: int,
    toolCallBudget: int,
    verificationText: bool)

  type Plan = seq<SubtaskSpec>

  ghost predicate UniqueIds(plan: Plan) {
    forall i, j :: 0 <= i < j < |plan| ==> plan[i].id != plan[j].id
  }

  /** The identifiers occurring in a plan. */
  function Ids(plan: Plan): set<Id> {
    set s | s in plan :: s.id
  }

  ghost predicate DepsExist(plan: Plan) {
    forall s, d :: s in plan && d in s.deps ==> d in Ids(plan)
  }

  function TotalBudget(plan: Plan): int {
    if plan == [] then 0 else plan[0].tokenBudget + TotalBudget(plan[1..])
  }
}
