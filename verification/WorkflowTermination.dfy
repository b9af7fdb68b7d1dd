/** Every run of the orchestration graph ends, with an explicit bound on its length. */
module WorkflowTermination {
  import opened Plans
  import opened Dependencies
  import opened PlanValidation
  import opened Review
  import opened Workflow
  import opened WorkflowInvariant
  import opened WorkflowResults

  /** What an active, unfinished subtask can still cost. */
  function Cost(t: Subtask, m: nat): int {
    if t.superseded || t.status.Passed? then 0 else m + 2 - t.rework
  }

  function Work(subtasks: seq<Subtask>, m: nat): int {
    if subtasks == [] then 0 else Work(subtasks[..|subtasks| - 1], m) + Cost(subtasks[|subtasks| - 1], m)
  }

  lemma {:induction false} WorkNonNegative(subtasks: seq<Subtask>, m: nat)
    requires forall t :: t in subtasks ==> Cost(t, m) >= 0
    ensures Work(subtasks, m) >= 0
  {
    if subtasks != [] {
      WorkNonNegative(subtasks[..|subtasks| - 1], m);
    }
  }

  /** Work falls when no cost rises, and falls strictly when one cost falls. */
  lemma {:induction false} WorkFalls(was: seq<Subtask>, now: seq<Subtask>, m: nat)
    requires |was| == |now|
    requires forall i {:trigger was[i]} {:trigger now[i]} :: 0 <= i < |was| ==> Cost(now[i], m) <= Cost(was[i], m)
    ensures Work(now, m) <= Work(was, m)
    ensures (exists i {:trigger was[i]} {:trigger now[i]} :: 0 <= i < |was| && Cost(now[i], m) < Cost(was[i], m))
            ==> Work(now, m) < Work(was, m)
  {
    if was != [] {
      var n := |was| - 1;
      assert was[n] == was[n] && now[n] == now[n];
      WorkFalls(was[..n], now[..n], m);
      if i :| 0 <= i < n && Cost(now[i], m) < Cost(was[i], m) {
        assert Cost(now[..n][i], m) < Cost(was[..n][i], m);
      }
    }
  }

  ghost function ActiveIds(subtasks: seq<Subtask>): set<Id> {
    set t | t in subtasks && !t.superseded :: t.spec.id
  }

  /** Distinct identifiers bound the work. */
  lemma {:induction false} WorkBounded(subtasks: seq<Subtask>, m: nat)
    requires Unique(subtasks)
    ensures Work(subtasks, m) <= (m + 2) * |ActiveIds(subtasks)|
  {
    if subtasks != [] {
      WorkBounded(subtasks[..|subtasks| - 1], m);
      OneMoreActive(subtasks);
      Distribute(m + 2, |ActiveIds(subtasks[..|subtasks| - 1])|);
    }
  }

  lemma OneMoreActive(subtasks: seq<Subtask>)
    requires Unique(subtasks) && subtasks != []
    ensures |ActiveIds(subtasks)|
            == |ActiveIds(subtasks[..|subtasks| - 1])| + if subtasks[|subtasks| - 1].superseded then 0 else 1
  {
    var front, last := subtasks[..|subtasks| - 1], subtasks[|subtasks| - 1];
    assert subtasks == front + [last];
    if last.superseded {
      assert ActiveIds(subtasks) == ActiveIds(front);
    } else {
      assert ActiveIds(subtasks) == ActiveIds(front) + {last.spec.id};
      assert last.spec.id !in ActiveIds(front);
    }
  }

  lemma Distribute(a: nat, b: nat)
    ensures a * (b + 1) == a * b + a
  {
  }

  lemma PlanBoundsWork(cfg: Config, s: State)
    requires Core(cfg, s)
    ensures 0 <= Work(s.subtasks, MaxRework(s.complexity)) <= 32
  {
    var m, active := MaxRework(s.complexity), ActiveIds(s.subtasks);
    WorkBounded(s.subtasks, m);
    assert active <= Ids(s.plan);
    SetSize(s.plan);
    SubsetSize(active, Ids(s.plan));
    Scale(m + 2, |active|);
    forall t | t in s.subtasks
      ensures Cost(t, m) >= 0
    {
      assert Sound(cfg, s, t);
    }
    WorkNonNegative(s.subtasks, m);
  }

  lemma Scale(a: nat, b: nat)
    requires a <= 4 && b <= 8
    ensures a * b <= 32
  {
  }

  /** Eight subtasks at rework limit two cost at most 4 each, and 8 visits bring the cost
      down by one at least: with the last round an epoch takes no more than 8 * 32 + 8 = 264
      visits. There are at most three epochs, and two visits before the first: 3 * 264 + 2. */
  const MAX_VISITS: nat := 794

  ghost function Base(s: State): int {
    264 * (2 - s.replanCount)
  }

  /** The termination measure: remaining replans first, then the work left in the
      epoch, then the position in the round. */
  ghost function Measure(s: State): int {
    var base := Base(s);
    var work := 8 * Work(s.subtasks, MaxRework(s.complexity));
    match s.node
    case Ingest => 794
    case Clarify => 793
    case Planning => if s.reason == NoReason then 792 else base + 2
    case Dispatch => base + work + 7
    case Exec(_) => base + work + 6
    case Reviewing => base + work + (if HasExecuted(s.subtasks) then 1 else if HasRejected(s.subtasks) then 9 else 5)
    case Finalize => 1
    case FailReworkLimit => 1
    case End => 0
  }

  lemma MeasurePositive(cfg: Config, s: State)
    requires Inv(cfg, s)
    ensures Measure(s) >= 0 && (Measure(s) == 0 ==> s.node.End?)
  {
    PlanBoundsWork(cfg, s);
  }

  lemma PlanMeasure(cfg: Config, s: State, input: Input)
    requires Inv(cfg, s) && s.node.Planning?
    ensures Measure(PlanStep(cfg, s, input)) < Measure(s)
  {
    PlanStepAdopts(cfg, s, input);
    PlanStepKeeps(cfg, s, input);
    PlanBoundsWork(cfg, PlanStep(cfg, s, input));
  }

  lemma DispatchMeasure(cfg: Config, s: State)
    requires Inv(cfg, s) && s.node.Dispatch?
    ensures Measure(DispatchStep(s)) < Measure(s)
  {
    DispatchKeeps(cfg, s);
    PlanBoundsWork(cfg, s);
  }

  lemma ExecCost(cfg: Config, input: Input, t: Subtask, m: nat)
    requires Waiting(t)
    ensures var now := Execute(cfg, input, t);
            && Cost(now, m) <= Cost(t, m) && !now.superseded && (now.status.Executed? || Cost(now, m) < Cost(t, m))
  {
  }

  /** Executing a subtask either leaves it for review, or costs it one rework. */
  lemma ExecWork(cfg: Config, s: State, sends: seq<Id>, input: Input)
    requires Unique(s.subtasks) && SendsReady(s.subtasks, sends) && !input.agentFails
    ensures var m, next := MaxRework(s.complexity), ExecStep(cfg, s, sends, input);
            && Work(next.subtasks, m) <= Work(s.subtasks, m)
            && (!HasExecuted(next.subtasks) ==> Work(next.subtasks, m) < Work(s.subtasks, m))
  {
    hide Execute, Work, Cost, DepsDone, MaxRework;
    var now, m := ExecStep(cfg, s, sends, input).subtasks, MaxRework(s.complexity);
    ExecEvolves(cfg, s, sends, input);
    forall i {:trigger s.subtasks[i]} {:trigger now[i]} | 0 <= i < |now|
      ensures Cost(now[i], m) <= Cost(s.subtasks[i], m)
    {
      if s.subtasks[i].spec.id in sends { ExecCost(cfg, input, s.subtasks[i], m); }
    }
    WorkFalls(s.subtasks, now, m);
    assert sends[0] in sends;
    var t :| t in s.subtasks && Waiting(t) && t.spec.id == sends[0] && DepsDone(s.subtasks, t.spec.deps);
    var i :| 0 <= i < |s.subtasks| && s.subtasks[i] == t;
    ExecCost(cfg, input, t, m);
    assert now[i] == Execute(cfg, input, t) && now[i] in now;
  }

  lemma ExecBelow(s: State, next: State)
    requires s.node.Exec? && next.node.Reviewing? && next.replanCount == s.replanCount
        && next.complexity == s.complexity
    requires Work(next.subtasks, MaxRework(s.complexity)) <= Work(s.subtasks, MaxRework(s.complexity))
    requires !HasExecuted(next.subtasks) ==>
               Work(next.subtasks, MaxRework(s.complexity)) < Work(s.subtasks, MaxRework(s.complexity))
    ensures Measure(next) < Measure(s)
  {
  }

  lemma ExecMeasure(cfg: Config, s: State, sends: seq<Id>, input: Input)
    requires Inv(cfg, s) && s.node == Exec(sends)
    ensures Measure(ExecStep(cfg, s, sends, input)) < Measure(s)
  {
    if input.agentFails {
      MeasurePositive(cfg, s);
    } else {
      ExecWork(cfg, s, sends, input);
      ExecBelow(s, ExecStep(cfg, s, sends, input));
    }
  }

  lemma ReviewCost(cfg: Config, s: State, input: Input, i: nat)
    requires Core(cfg, s) && i < |s.subtasks|
    ensures var m, now := MaxRework(s.complexity), ReviewAll(cfg, s, input);
            && Cost(now[i], m) <= Cost(s.subtasks[i], m)
            && (!s.subtasks[i].superseded && s.subtasks[i].status.Executed? ==>
                  Cost(now[i], m) < Cost(s.subtasks[i], m))
  {
    assert s.subtasks[i] in s.subtasks && Sound(cfg, s, s.subtasks[i]);
  }

  lemma ReviewWork(cfg: Config, s: State, input: Input)
    requires Core(cfg, s)
    ensures Work(ReviewAll(cfg, s, input), MaxRework(s.complexity)) <= Work(s.subtasks, MaxRework(s.complexity))
    ensures HasExecuted(s.subtasks) ==>
              Work(ReviewAll(cfg, s, input), MaxRework(s.complexity)) < Work(s.subtasks, MaxRework(s.complexity))
  {
    var m, now := MaxRework(s.complexity), ReviewAll(cfg, s, input);
    forall i | 0 <= i < |s.subtasks|
      ensures Cost(now[i], m) <= Cost(s.subtasks[i], m)
      ensures !s.subtasks[i].superseded && s.subtasks[i].status.Executed? ==> Cost(now[i], m) < Cost(s.subtasks[i], m)
    {
      ReviewCost(cfg, s, input, i);
    }
    WorkFalls(s.subtasks, now, m);
    if HasExecuted(s.subtasks) {
      var t :| t in s.subtasks && !t.superseded && t.status.Executed?;
      var i :| 0 <= i < |s.subtasks| && s.subtasks[i] == t;
    }
  }

  /** Where the review routes to, and at most how much measure that leaves. */
  lemma RouteMeasure(cfg: Config, s: State)
    requires Routable(cfg, s)
    ensures Measure(FollowRoute(s)) <= Base(s) +
              if FollowRoute(s).node.Dispatch? then 8 * Work(s.subtasks, MaxRework(s.complexity)) + 7 else 2
    ensures FollowRoute(s).node.Dispatch? ==> HasRejected(s.subtasks) || HasStartable(s.subtasks)
  {
    RouteKeeps(cfg, s);
    AnyReadyIsExact(s.subtasks, s.plan, |s.subtasks|);
    assert forall i :: 0 <= i < |s.subtasks| ==> s.subtasks[i] in s.subtasks;
  }

  /** The work after a review, and what it leaves to start. */
  ghost predicate Lightened(s: State, next: State) {
    && next.replanCount == s.replanCount && next.complexity == s.complexity
    && 0 <= Work(next.subtasks, MaxRework(s.complexity)) <= Work(s.subtasks, MaxRework(s.complexity))
    && (HasExecuted(s.subtasks) ==>
          Work(next.subtasks, MaxRework(s.complexity)) < Work(s.subtasks, MaxRework(s.complexity)))
    && (!HasExecuted(s.subtasks) ==> next.subtasks == s.subtasks)
  }

  lemma ReviewLightens(cfg: Config, s: State, input: Input)
    requires Inv(cfg, s) && s.node.Reviewing?
    ensures Lightened(s, Reviewed(cfg, s, input))
  {
    ReviewWork(cfg, s, input);
    ReviewedRoutable(cfg, s, input);
    PlanBoundsWork(cfg, Reviewed(cfg, s, input));
    if !HasExecuted(s.subtasks) {
      NothingReviewed(cfg, s, input);
    }
  }

  lemma RoutedBelow(cfg: Config, s: State, next: State)
    requires s.node.Reviewing? && RoundHappened(s) && Routable(cfg, next) && Lightened(s, next)
    ensures Measure(FollowRoute(next)) < Measure(s)
  {
    RouteMeasure(cfg, next);
  }

  lemma ReviewMeasure(cfg: Config, s: State, input: Input)
    requires Inv(cfg, s) && s.node.Reviewing?
    ensures Measure(ReviewStep(cfg, s, input)) < Measure(s)
  {
    if input.agentFails {
      MeasurePositive(cfg, s);
    } else {
      ReviewedRoutable(cfg, s, input);
      ReviewLightens(cfg, s, input);
      RoutedBelow(cfg, s, Reviewed(cfg, s, input));
    }
  }

  lemma NothingReviewed(cfg: Config, s: State, input: Input)
    requires !HasExecuted(s.subtasks)
    ensures ReviewAll(cfg, s, input) == s.subtasks
  {
    forall i | 0 <= i < |s.subtasks|
      ensures ReviewAll(cfg, s, input)[i] == s.subtasks[i]
    {
      assert s.subtasks[i] in s.subtasks;
    }
  }

  /** Every step of a running workflow brings the measure down. */
  lemma StepMeasure(cfg: Config, s: State, input: Input)
    requires Inv(cfg, s) && !s.node.End?
    ensures Measure(Step(cfg, s, input)) < Measure(s)
  {
    match s.node
    case Planning => PlanMeasure(cfg, s, input);
    case Dispatch => DispatchMeasure(cfg, s);
    case Exec(sends) => ExecMeasure(cfg, s, sends, input);
    case Reviewing => ReviewMeasure(cfg, s, input);
    case _ =>
  }

  lemma {:induction false} MeasureOfRun(cfg: Config, inputs: seq<Input>)
    ensures Run(cfg, inputs).node.End? || Measure(Run(cfg, inputs)) <= MAX_VISITS - |inputs|
  {
    if inputs != [] {
      var before := inputs[..|inputs| - 1];
      MeasureOfRun(cfg, before);
      RunKeeps(cfg, before);
      if !Run(cfg, before).node.End? {
        StepMeasure(cfg, Run(cfg, before), inputs[|inputs| - 1]);
      }
    }
  }

  /** Termination: whatever executors, reviewers, planners and users answer, the
      graph has stopped after at most 794 node visits. */
  lemma EveryRunEnds(cfg: Config, inputs: seq<Input>)
    requires |inputs| >= MAX_VISITS
    ensures Run(cfg, inputs).node.End? && Run(cfg, inputs).ending != Running
  {
    MeasureOfRun(cfg, inputs);
    RunKeeps(cfg, inputs);
    MeasurePositive(cfg, Run(cfg, inputs));
  }
}
