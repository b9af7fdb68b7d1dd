/** Planning envelopes and the two deterministic recoveries: cutting an oversized
    plan down, and the read-only plan built from the task shape alone. */
module Recovery {
  import opened Plans
  import opened Dependencies
  import opened PlanValidation

  function CapabilitiesFor(shape: Shape): set<Capability> {
    match shape
    case DirectShape => {}
    case ReadOnlyShape => {Research}
    case AnalysisShape => {Analysis, Research}
    case ChangeShape => {Research, CodeChange, Verification}
    case WindowsShape => {WindowsAction, Verification}
    case DeliveryShape => {Research, CodeChange, Verification}
  }

  /** `SUBTASK_LIMITS`: the smallest and largest plan per complexity. */
  function Limits(complexity: Complexity): (nat, nat) {
    match complexity
    case Trivial => (0, 1)
    case Simple => (1, 2)
    case Standard => (2, 4)
    case Complex => (3, 6)
  }

  /** `PlanningEnvelope.for_task`, from the classified shape and complexity. */
  function ForTask(classified: Shape, complexity: Complexity, tools: set<string>, tokenBudget: int,
                   calls: int): Envelope {
    var shape := if classified.DirectShape? && !complexity.Trivial? then ReadOnlyShape else classified;
    var (low, high) := Limits(complexity);
    var high' := if shape.ReadOnlyShape? || shape.AnalysisShape? then Min(high, Max(2, low)) else high;
    Envelope(complexity, shape, CapabilitiesFor(shape), high', low, tools, tokenBudget, Min(calls, 20))
  }

  // ----- Cutting an oversized plan -----

  function KeepDeps(deps: seq<Id>, kept: set<Id>): (r: seq<Id>)
    ensures forall d :: d in r <==> d in deps && d in kept
  {
    if deps == [] then []
    else
      var rest := KeepDeps(deps[1..], kept);
      if deps[0] in kept then [deps[0]] + rest else rest
  }

  /** `deterministic_simplification`: the first `maxSubtasks` subtasks, without the
      dependencies that were cut off. */
  function Simplify(plan: Plan, envelope: Envelope): Plan {
    if |plan| <= envelope.maxSubtasks then plan
    else
      var kept := Ids(plan[..envelope.maxSubtasks]);
      seq(envelope.maxSubtasks, i requires 0 <= i < |plan| => plan[i].(deps := KeepDeps(plan[i].deps, kept)))
  }

  method DeterministicSimplification(plan: Plan, envelope: Envelope) returns (r: Plan)
    ensures r == Simplify(plan, envelope)
  {
    if |plan| <= envelope.maxSubtasks { return plan; }
    r := plan[..envelope.maxSubtasks];
    var kept := Ids(r);
    for i := 0 to |r|
      invariant |r| == envelope.maxSubtasks
      invariant forall k :: 0 <= k < |r| ==>
                  r[k] == if k < i then plan[k].(deps := KeepDeps(plan[k].deps, kept)) else plan[k]
    {
      r := r[i := r[i].(deps := KeepDeps(r[i].deps, kept))];
    }
  }

  lemma {:induction false} BudgetOfCut(a: Plan, b: Plan)
    requires |a| == |b| && forall i :: 0 <= i < |a| ==> a[i].tokenBudget == b[i].tokenBudget
    ensures TotalBudget(a) == TotalBudget(b)
  {
    if a != [] {
      BudgetOfCut(a[1..], b[1..]);
    }
  }

  lemma {:induction false} BudgetOfPrefix(plan: Plan, n: nat)
    requires n <= |plan| && forall s :: s in plan ==> s.tokenBudget >= 0
    ensures 0 <= TotalBudget(plan[..n]) <= TotalBudget(plan)
  {
    if plan != [] {
      BudgetOfPrefix(plan[1..], if n == 0 then 0 else n - 1);
      assert n > 0 ==> plan[..n][1..] == plan[1..][..n - 1];
    }
  }

  /** The cut keeps identifiers, and its graph is a subgraph. */
  lemma CutDeps(plan: Plan, envelope: Envelope)
    requires UniqueIds(plan) && |plan| > envelope.maxSubtasks
    ensures UniqueIds(Simplify(plan, envelope)) && DepsExist(Simplify(plan, envelope))
  {
    var cut, front := Simplify(plan, envelope), plan[..envelope.maxSubtasks];
    forall n | n in Ids(front)
      ensures n in Ids(cut)
    {
      var i :| 0 <= i < |front| && front[i].id == n;
      assert cut[i] in cut;
    }
  }

  lemma CutAcyclic(plan: Plan, envelope: Envelope)
    requires UniqueIds(plan) && Acyclic(GraphOf(plan)) && |plan| > envelope.maxSubtasks
    requires UniqueIds(Simplify(plan, envelope))
    ensures Acyclic(GraphOf(Simplify(plan, envelope)))
  {
    var cut := Simplify(plan, envelope);
    var g, h := GraphOf(plan), GraphOf(cut);
    forall n | n in h
      ensures n in g && forall d :: d in h[n] ==> d in g[n]
    {
      var i := Position(cut, n);
      FindAt(cut, i);
      FindAt(plan, i);
    }
    SubgraphAcyclic(g, h);
  }

  lemma CutContracts(plan: Plan, registry: Registry, envelope: Envelope, wide: Envelope)
    requires |plan| > envelope.maxSubtasks && wide == envelope.(maxSubtasks := |plan|)
    requires forall s :: s in plan ==> WellFormed(s, registry) && Permitted(s, wide)
    ensures forall s :: s in Simplify(plan, envelope) ==> WellFormed(s, registry) && Permitted(s, envelope)
  {
    var cut := Simplify(plan, envelope);
    forall s | s in cut
      ensures WellFormed(s, registry) && Permitted(s, envelope)
    {
      var i :| 0 <= i < |cut| && cut[i] == s;
      assert plan[i] in plan;
    }
  }

  /** A plan whose only fault is its size is accepted after the cut exactly when the
      kept budgets fit; with non-negative budgets they always do. */
  lemma SimplificationRecovers(plan: Plan, registry: Registry, budget: int, envelope: Envelope)
    requires envelope.minSubtasks <= envelope.maxSubtasks < |plan|
    requires ValidPlan(plan, registry, budget, Some(envelope.(maxSubtasks := |plan|)))
    ensures Validate(plan, registry, budget, Some(envelope)) == Some(PlanTooComplex)
    ensures Validate(Simplify(plan, envelope), registry, budget, Some(envelope)).None?
            <==> TotalBudget(plan[..envelope.maxSubtasks]) <= budget
    ensures (forall s :: s in plan ==> s.tokenBudget >= 0) ==>
              Validate(Simplify(plan, envelope), registry, budget, Some(envelope)).None?
  {
    var cut := Simplify(plan, envelope);
    CutDeps(plan, envelope);
    CutAcyclic(plan, envelope);
    CutContracts(plan, registry, envelope, envelope.(maxSubtasks := |plan|));
    BudgetOfCut(cut, plan[..envelope.maxSubtasks]);
    ValidateAccepts(cut, registry, budget, Some(envelope));
    if forall s :: s in plan ==> s.tokenBudget >= 0 {
      BudgetOfPrefix(plan, envelope.maxSubtasks);
    }
  }

  /** Negative budgets break the recovery: the dropped subtask was paying for the kept one. */
  lemma NegativeBudgetsDefeatRecovery(s: SubtaskSpec, t: SubtaskSpec, registry: Registry, envelope: Envelope)
    requires envelope.minSubtasks <= 1 == envelope.maxSubtasks
    requires ValidPlan([s, t], registry, 1, Some(envelope.(maxSubtasks := 2)))
    requires s.tokenBudget == 6 && t.tokenBudget == -5
    ensures Validate(Simplify([s, t], envelope), registry, 1, Some(envelope)).Some?
  {
    SimplificationRecovers([s, t], registry, 1, envelope);
    assert [s, t][..1] == [s];
  }

  // ----- The read-only recovery plan -----

  const RESEARCHER_TOOLS: set<string> := {
    "github_repo_info", "github_read_file", "github_list_directory", "github_list_commits",
    "github_list_issues", "github_get_issue", "github_list_pull_requests", "github_get_pull_request",
    "github_search_repositories", "github_search_code", "fixture_repo_lookup", "fixture_source_lookup",
    "local_read_text", "local_list_directory", "local_file_metadata", "local_read_json",
    "local_read_csv", "local_read_pdf", "web_fetch"}

  const EXECUTOR_TOOLS: set<string> := {
    "sandbox_create_directory", "sandbox_write_file", "sandbox_apply_patch", "sandbox_copy_file",
    "sandbox_move_file", "sandbox_delete_path", "sandbox_restore_backup",
    "fixture_repo_lookup", "fixture_source_lookup"}

  const DEFAULT_REGISTRY: Registry := map[
    Supervisor := Agent(true, {}),
    Planner := Agent(true, {}),
    Researcher := Agent(true, RESEARCHER_TOOLS),
    Executor := Agent(true, EXECUTOR_TOOLS),
    Reviewer := Agent(true, {})]

  function Worker(id: Id, deps: seq<Id>, capability: Capability, tools: seq<string>, budget: int,
                  calls: int): SubtaskSpec {
    SubtaskSpec(id, deps, Researcher, capability, capability, true, true, tools, budget, calls, false)
  }

  function EachBudget(envelope: Envelope): int {
    Max(500, envelope.tokenBudget / Max(envelope.minSubtasks, 2))
  }

  function ResearchTool(github: bool, tools: set<string>): string {
    if "github_search_repositories" in tools && github then "github_search_repositories"
    else if "fixture_repo_lookup" in tools then "fixture_repo_lookup"
    else "local_list_directory"
  }

  function AnalysisTool(tools: set<string>): string {
    if "local_list_directory" in tools then "local_list_directory" else "fixture_repo_lookup"
  }

  /** `bounded_plan_for_shape`; `github` says whether the goal mentions GitHub. */
  function BoundedPlan(github: bool, envelope: Envelope): Option<Plan> {
    var each := EachBudget(envelope);
    if envelope.shape.ReadOnlyShape? then
      var tool := ResearchTool(github, envelope.tools);
      var a, b, c := Id("research_discovery"), Id("research_comparison"), Id("research_synthesis");
      var two := [Worker(a, [], Research, [tool], each, 3), Worker(b, [a], Research, [tool], each, 3)];
      Some(if envelope.minSubtasks >= 3 then two + [Worker(c, [a, b], Research, [], each, 1)] else two)
    else if envelope.shape.AnalysisShape? then
      var tool := AnalysisTool(envelope.tools);
      var a, b, c := Id("analysis_dependencies"), Id("analysis_risks"), Id("analysis_synthesis");
      var two := [Worker(a, [], Analysis, [tool], each, 3), Worker(b, [], Analysis, [tool], each, 3)];
      Some(if envelope.minSubtasks >= 3 then two + [Worker(c, [a, b], Analysis, [], each, 1)] else two)
    else None
  }

  ghost predicate BackwardDeps(plan: Plan) {
    forall i, d :: 0 <= i < |plan| && d in plan[i].deps ==> exists j :: 0 <= j < i && plan[j].id == d
  }

  /** A plan whose dependencies all point to earlier subtasks has no cycle. */
  lemma BackwardDepsAcyclic(plan: Plan)
    requires UniqueIds(plan) && BackwardDeps(plan)
    ensures DepsExist(plan) && Acyclic(GraphOf(plan))
  {
    var g := GraphOf(plan);
    var rank := map i | 0 <= i < |plan| :: plan[i].id := i;
    forall a, b | a in g && b in g[a] && b in g
      ensures rank[b] < rank[a]
    {
      var i := Position(plan, a);
      FindAt(plan, i);
      var j :| 0 <= j < i && plan[j].id == b;
    }
    RankExcludesCycles(g, rank);
    forall s, d | s in plan && d in s.deps
      ensures d in Ids(plan)
    {
      var i :| 0 <= i < |plan| && plan[i] == s;
      var j :| 0 <= j < i && plan[j].id == d;
      assert plan[j] in plan;
    }
  }

  lemma BoundedPlanShape(github: bool, envelope: Envelope)
    requires BoundedPlan(github, envelope).Some?
    ensures var plan := BoundedPlan(github, envelope).value;
            && |plan| == (if envelope.minSubtasks >= 3 then 3 else 2)
            && UniqueIds(plan) && BackwardDeps(plan)
            && TotalBudget(plan) == |plan| * EachBudget(envelope)
  {
    var plan := BoundedPlan(github, envelope).value;
    if envelope.minSubtasks >= 3 {
      assert plan[1..] == [plan[1], plan[2]] && plan[1..][1..] == [plan[2]];
      assert TotalBudget([plan[2]]) == EachBudget(envelope);
      assert TotalBudget([plan[1], plan[2]]) == 2 * EachBudget(envelope);
    } else {
      assert plan[1..] == [plan[1]];
      assert TotalBudget([plan[1]]) == EachBudget(envelope);
    }
    forall i, d | 0 <= i < |plan| && d in plan[i].deps
      ensures exists j :: 0 <= j < i && plan[j].id == d
    {
      assert d == plan[0].id || (i == 2 && d == plan[1].id);
    }
  }

  lemma BoundedPlanContracts(github: bool, envelope: Envelope)
    requires BoundedPlan(github, envelope).Some?
    requires envelope.allowed == CapabilitiesFor(envelope.shape)
    ensures forall s :: s in BoundedPlan(github, envelope).value ==>
              WellFormed(s, DEFAULT_REGISTRY) && Permitted(s, envelope)
  {
  }

  /** The recovery plan is accepted, for every simple, standard or complex task with a
      read-only shape, exactly when the task budget holds 500 tokens per subtask. */
  lemma RecoveryPlanValidates(github: bool, classified: Shape, complexity: Complexity, tools: set<string>,
                              tokenBudget: int, calls: int)
    requires !complexity.Trivial? && tokenBudget > 0
    requires classified.ReadOnlyShape? || classified.AnalysisShape? || classified.DirectShape?
    ensures var envelope := ForTask(classified, complexity, tools, tokenBudget, calls);
            && BoundedPlan(github, envelope).Some?
            && (Validate(BoundedPlan(github, envelope).value, DEFAULT_REGISTRY, tokenBudget, Some(envelope)).None?
                <==> tokenBudget >= 500 * |BoundedPlan(github, envelope).value|)
  {
    var envelope := ForTask(classified, complexity, tools, tokenBudget, calls);
    var plan := BoundedPlan(github, envelope).value;
    BoundedPlanShape(github, envelope);
    BackwardDepsAcyclic(plan);
    BoundedPlanContracts(github, envelope);
    ValidateAccepts(plan, DEFAULT_REGISTRY, tokenBudget, Some(envelope));
    BudgetFits(envelope, |plan|);
  }

  lemma BudgetFits(envelope: Envelope, n: nat)
    requires 2 <= n <= 3 && n == Max(envelope.minSubtasks, 2) && envelope.tokenBudget > 0
    ensures n * EachBudget(envelope) <= envelope.tokenBudget <==> envelope.tokenBudget >= 500 * n
  {
  }

  /** How the recovery plan hangs together: comparison waits for discovery, analyses run side
      by side, and a synthesis waits for both of the others and needs no tool. */
  lemma RecoveryPlanOrder(github: bool, envelope: Envelope)
    requires BoundedPlan(github, envelope).Some?
    ensures var plan, research := BoundedPlan(github, envelope).value, envelope.shape.ReadOnlyShape?;
            && (research || envelope.shape.AnalysisShape?)
            && |plan| >= 2 && (|plan| == 3 <==> envelope.minSubtasks >= 3)
            && plan[0].deps == [] && plan[1].deps == (if research then [plan[0].id] else [])
            && plan[0].requiredTools == plan[1].requiredTools
               == [if research then ResearchTool(github, envelope.tools) else AnalysisTool(envelope.tools)]
            && (|plan| == 3 ==> plan[2].deps == [plan[0].id, plan[1].id] && plan[2].requiredTools == [])
            && forall s :: s in plan ==> s.role == Researcher && s.capability == if research then Research else Analysis
  {
  }

  /** An envelope never demands more subtasks than it allows, and never allows more than 20
      model calls, nor more than the task has. */
  lemma EnvelopeIsPossible(classified: Shape, complexity: Complexity, tools: set<string>, tokenBudget: int, calls: int)
    ensures var envelope := ForTask(classified, complexity, tools, tokenBudget, calls);
            && envelope.minSubtasks <= envelope.maxSubtasks <= 6 && envelope.tokenBudget == tokenBudget
            && envelope.maxModelCalls == (if calls <= 20 then calls else 20)
            && envelope.tools == tools && envelope.complexity == complexity
            && (envelope.shape == DirectShape ==> complexity.Trivial?)
  {
  }

  /** The tools of the recovery plan: for an analysis the listing if it is available and the
      fixture only if it is not; for research the search exactly if the goal is about GitHub and the
      search is available, else the fixture if that is, and the local listing as a last resort. */
  lemma ToolsAreAvailable(github: bool, tools: set<string>)
    ensures var tool := AnalysisTool(tools);
            && tool in RESEARCHER_TOOLS && (tool in tools || tool == "fixture_repo_lookup")
            && (tool == "fixture_repo_lookup" <==> "local_list_directory" !in tools)
    ensures var tool := ResearchTool(github, tools);
            && (tool in tools || tool == "local_list_directory") && tool in RESEARCHER_TOOLS
            && (tool == "github_search_repositories" <==> github && "github_search_repositories" in tools)
            && (tool == "local_list_directory" <==>
                  !(github && "github_search_repositories" in tools) && "fixture_repo_lookup" !in tools)
  {
  }
}
