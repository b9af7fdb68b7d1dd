/** The orchestration graph as the source runs it: loops over one shared, mutable task
    state, refining the step function and therefore ending for every environment. */
module WorkflowRun {
  import opened Plans
  import opened PlanValidation
  import opened Recovery
  import opened Review
  import opened Workflow
  import opened WorkflowInvariant
  import opened WorkflowResults
  import opened WorkflowTermination

  // ----- The fan-in reducer -----

  /** Merging a subtask whose identifier is listed replaces it in place. */
  lemma {:induction false} PutInPlace(subtasks: seq<Subtask>, t: Subtask, i: nat)
    requires Unique(subtasks) && i < |subtasks| && subtasks[i].spec.id == t.spec.id
    ensures Put(subtasks, t) == subtasks[i := t]
  {
    if i > 0 {
      PutInPlace(subtasks[1..], t, i - 1);
    }
  }

  ghost predicate InRange(order: seq<nat>, n: nat) {
    forall k :: 0 <= k < |order| ==> order[k] < n
  }

  /** The branches of a fan-out, each started from the dispatched list, merged in
      completion order. */
  ghost function MergeBranches(cfg: Config, input: Input, subtasks: seq<Subtask>, order: seq<nat>): seq<Subtask>
    requires InRange(order, |subtasks|)
  {
    if order == [] then subtasks
    else
      var last := order[|order| - 1];
      Merge(MergeBranches(cfg, input, subtasks, order[..|order| - 1]), [Execute(cfg, input, subtasks[last])])
  }

  lemma {:induction false} BranchesSoFar(cfg: Config, input: Input, subtasks: seq<Subtask>, order: seq<nat>)
    requires Unique(subtasks) && InRange(order, |subtasks|)
    ensures |MergeBranches(cfg, input, subtasks, order)| == |subtasks|
    ensures forall i {:trigger MergeBranches(cfg, input, subtasks, order)[i]} :: 0 <= i < |subtasks| ==>
              MergeBranches(cfg, input, subtasks, order)[i] ==
              if i in order then Execute(cfg, input, subtasks[i]) else subtasks[i]
  {
    if order != [] {
      var front, last := order[..|order| - 1], order[|order| - 1];
      assert order == front + [last];
      assert order[|front|] < |subtasks|;
      BranchesSoFar(cfg, input, subtasks, front);
      var merged, branch := MergeBranches(cfg, input, subtasks, front), Execute(cfg, input, subtasks[last]);
      assert [branch][..0] == [] && Merge(merged, [branch]) == Put(Merge(merged, []), branch);
      SameIds(subtasks, merged);
      PutInPlace(merged, branch, last);
    }
  }

  lemma SameIds(a: seq<Subtask>, b: seq<Subtask>)
    requires Unique(a) && |a| == |b|
    requires forall i {:trigger a[i]} {:trigger b[i]} :: 0 <= i < |a| ==> a[i].spec.id == b[i].spec.id
    ensures Unique(b)
  {
  }

  /** The fan-in gives the same list for every completion order of the branches. */
  lemma FanInIgnoresOrder(cfg: Config, input: Input, subtasks: seq<Subtask>, order: seq<nat>, sends: seq<Id>)
    requires Unique(subtasks) && InRange(order, |subtasks|)
    requires forall i :: 0 <= i < |subtasks| ==> (i in order <==> subtasks[i].spec.id in sends)
    ensures MergeBranches(cfg, input, subtasks, order) == ExecuteAll(cfg, input, subtasks, sends)
  {
    BranchesSoFar(cfg, input, subtasks, order);
  }

  /** `merge_subtasks` over an insertion-ordered dictionary. */
  method MergeSubtasks(left: seq<Subtask>, right: seq<Subtask>) returns (merged: seq<Subtask>)
    requires Unique(left)
    ensures merged == Merge(left, right)
  {
    var keys: seq<Id>, byId: map<Id, Subtask> := [], map[];
    for i := 0 to |left|
      invariant Listed(left[..i], keys, byId)
    {
      assert forall k :: 0 <= k < i ==> left[..i][k].spec.id != left[i].spec.id;
      assert left[i].spec.id !in byId;
      ListedMore(left[..i], keys, byId, left[i]);
      assert left[..i + 1] == left[..i] + [left[i]];
      keys, byId := keys + [left[i].spec.id], byId[left[i].spec.id := left[i]];
    }
    assert left[..|left|] == left;
    for i := 0 to |right|
      invariant Listed(Merge(left, right[..i]), keys, byId)
    {
      keys, byId := PutOne(Merge(left, right[..i]), keys, byId, right[i]);
      assert right[..i + 1][..i] == right[..i];
    }
    assert right[..|right|] == right;
    merged := seq(|keys|, i requires 0 <= i < |keys| && keys[i] in byId => byId[keys[i]]);
  }

  /** One dictionary assignment. */
  method PutOne(ghost subtasks: seq<Subtask>, keys0: seq<Id>, byId0: map<Id, Subtask>, t: Subtask)
    returns (keys: seq<Id>, byId: map<Id, Subtask>)
    requires Listed(subtasks, keys0, byId0)
    ensures Listed(Put(subtasks, t), keys, byId)
  {
    if t.spec.id in byId0 {
      PutKnown(subtasks, keys0, byId0, t);
      keys := keys0;
    } else {
      PutNew(subtasks, keys0, byId0, t);
      keys := keys0 + [t.spec.id];
    }
    byId := byId0[t.spec.id := t];
  }

  /** A dictionary, by its keys in insertion order, holds a list of subtasks. */
  ghost predicate Listed(subtasks: seq<Subtask>, keys: seq<Id>, byId: map<Id, Subtask>) {
    && |keys| == |subtasks| && Unique(subtasks)
    && (forall i {:trigger keys[i]} {:trigger subtasks[i]} :: 0 <= i < |keys| ==>
          keys[i] == subtasks[i].spec.id && keys[i] in byId && byId[keys[i]] == subtasks[i])
    && (forall id :: id in byId ==> id in keys)
  }

  lemma PutKnown(subtasks: seq<Subtask>, keys: seq<Id>, byId: map<Id, Subtask>, t: Subtask)
    requires Listed(subtasks, keys, byId) && t.spec.id in byId
    ensures Listed(Put(subtasks, t), keys, byId[t.spec.id := t])
  {
    assert t.spec.id in keys;
    var i :| 0 <= i < |keys| && keys[i] == t.spec.id;
    PutInPlace(subtasks, t, i);
    SameIds(subtasks, subtasks[i := t]);
  }

  lemma PutNew(subtasks: seq<Subtask>, keys: seq<Id>, byId: map<Id, Subtask>, t: Subtask)
    requires Listed(subtasks, keys, byId) && t.spec.id !in byId
    ensures Listed(Put(subtasks, t), keys + [t.spec.id], byId[t.spec.id := t])
  {
    forall i | 0 <= i < |subtasks|
      ensures subtasks[i].spec.id != t.spec.id
    {
      assert keys[i] in byId;
    }
    PutAtEnd(subtasks, t);
    ListedMore(subtasks, keys, byId, t);
  }

  lemma ListedMore(subtasks: seq<Subtask>, keys: seq<Id>, byId: map<Id, Subtask>, t: Subtask)
    requires Listed(subtasks, keys, byId) && t.spec.id !in byId
    ensures Listed(subtasks + [t], keys + [t.spec.id], byId[t.spec.id := t])
  {
    var more := subtasks + [t];
    forall i | 0 <= i < |subtasks|
      ensures subtasks[i].spec.id in byId && subtasks[i].spec.id != t.spec.id
    {
      assert keys[i] in byId;
    }
    forall id | id in byId[t.spec.id := t]
      ensures id in keys + [t.spec.id]
    {
    }
  }

  lemma {:induction false} PutAtEnd(subtasks: seq<Subtask>, t: Subtask)
    requires forall i :: 0 <= i < |subtasks| ==> subtasks[i].spec.id != t.spec.id
    ensures Put(subtasks, t) == subtasks + [t]
  {
    if subtasks != [] {
      PutAtEnd(subtasks[1..], t);
      assert subtasks + [t] == [subtasks[0]] + (subtasks[1..] + [t]);
    }
  }

  // ----- The nodes -----

  method RouteDispatch(subtasks: seq<Subtask>) returns (sends: Option<seq<Id>>)
    ensures sends == Sends(subtasks, |subtasks|)
  {
    var chosen: seq<Id> := [];
    for i := 0 to |subtasks|
      invariant Sends(subtasks, i) == Some(chosen)
    {
      var t := subtasks[i];
      if Waiting(t) {
        var ready := DepsPassed(subtasks, t.spec.deps, false);
        if ready.None? {
          LookupFailureStays(subtasks, i + 1, |subtasks|);
          return None;
        }
        if ready.value {
          chosen := chosen + [t.spec.id];
        }
      }
    }
    sends := Some(chosen);
  }

  lemma {:induction false} LookupFailureStays(subtasks: seq<Subtask>, i: nat, n: nat)
    requires i <= n <= |subtasks| && Sends(subtasks, i).None?
    ensures Sends(subtasks, n).None?
  {
    if i < n {
      LookupFailureStays(subtasks, i, n - 1);
    }
  }

  /** The review loop: one pass over the list, building the updated one. */
  method ReviewList(cfg: Config, s: State, input: Input) returns (updated: seq<Subtask>)
    ensures updated == ReviewAll(cfg, s, input)
  {
    updated := [];
    for i := 0 to |s.subtasks|
      invariant |updated| == i
      invariant forall k :: 0 <= k < i ==> updated[k] == ReviewOne(cfg, s, input, s.subtasks[k])
    {
      var t := s.subtasks[i];
      if t.superseded || !t.status.Executed? {
        updated := updated + [t];
      } else {
        var issues := Check(t, ValidIds(cfg, s), input.usedCalls(t.spec.id));
        var verdict :=
          if issues != [] then Verdict(false, issues, [t.spec.id])
          else if !s.reviewRequired || (Intermediate(s.subtasks, t.spec.id) && cfg.realMode) then Verdict(true, [], [])
          else input.verdicts(t.spec.id);
        updated := updated + [Judge(t, verdict)];
      }
    }
  }

  /** One run of the graph over its shared task state. */
  class GraphRun {
    const cfg: Config
    var state: State

    constructor (cfg: Config)
      ensures this.cfg == cfg && state == Initial()
    {
      this.cfg := cfg;
      state := Initial();
    }

    method PlanNode(input: Input)
      requires state.node.Planning?
      modifies this
      ensures state == PlanStep(cfg, old(state), input)
    {
      var s := state;
      var envelope := ForTask(input.shape, input.complexity, input.tools, cfg.tokenBudget, cfg.maxCalls);
      var replanning := s.reason != NoReason;
      var reviewed := !envelope.shape.ReadOnlyShape? && !envelope.shape.AnalysisShape?;
      if replanning && s.replanCount >= REPLAN_LIMIT {
        state := Stop(s.(reason := NoReason), Failed(ReworkLimitExceeded));
        return;
      }
      if input.complexity.Trivial? && !replanning {
        state := Adopt(s, [], Trivial, false);
        return;
      }
      if input.complexity.Simple? && !replanning {
        var failure := ValidatePlan(SimplePlan(cfg.tokenBudget), cfg.registry, cfg.tokenBudget, None);
        state := if failure.Some? then Stop(s, Raised(SimplePlanRejected))
                 else Adopt(s, SimplePlan(cfg.tokenBudget), Simple, false);
        return;
      }
      if cfg.realMode && !replanning && input.proposal.Some? {
        var routed := Routed(input.proposal.value);
        if routed.None? {
          state := Stop(s, Raised(UnknownCapability));
          return;
        }
        var failure := ValidatePlan(routed.value, cfg.registry, cfg.tokenBudget, Some(envelope));
        if failure.None? {
          state := Adopt(s, routed.value, input.complexity, reviewed);
          return;
        }
      }
      var routed := Routed(input.fallback);
      if routed.None? {
        state := Stop(s, Raised(UnknownCapability));
        return;
      }
      var plan := Recover(routed.value, envelope);
      state := if plan.None? then Stop(s.(reason := NoReason), Failed(PlanningInvalid))
               else Adopt(s, plan.value, input.complexity, reviewed);
    }

    method Recover(routed: Plan, envelope: Envelope) returns (plan: Option<Plan>)
      ensures plan == FallbackPlan(cfg, routed, envelope)
    {
      var used := if cfg.realMode then Some(envelope) else None;
      var failure := ValidatePlan(routed, cfg.registry, cfg.tokenBudget, used);
      if failure.None? { return Some(routed); }
      if failure != Some(PlanTooComplex) { return None; }
      var cut := DeterministicSimplification(routed, envelope);
      failure := ValidatePlan(cut, cfg.registry, cfg.tokenBudget, used);
      plan := if failure.None? then Some(cut) else None;
    }

    method DispatchNode()
      requires state.node.Dispatch?
      modifies this
      ensures state == DispatchStep(old(state))
    {
      var sends := RouteDispatch(state.subtasks);
      match sends
      case None => state := Stop(state, Raised(MissingKey));
      case Some(ids) => state := state.(node := if ids == [] then Reviewing else Exec(ids));
    }

    method ReviewNode(input: Input)
      requires state.node.Reviewing?
      modifies this
      ensures state == ReviewStep(cfg, old(state), input)
    {
      if input.agentFails {
        state := Stop(state, Failed(AgentFailure));
        return;
      }
      var updated := ReviewList(cfg, state, input);
      state := FollowRoute(state.(subtasks := updated,
                                  reason := ReasonAfter(updated, state.complexity, input.steering)));
    }

    method Visit(input: Input)
      modifies this
      ensures state == Step(cfg, old(state), input)
    {
      match state.node
      case Ingest => state := state.(node := if input.unclear then Clarify else Planning);
      case Clarify => state := state.(node := Planning);
      case Planning => PlanNode(input);
      case Dispatch => DispatchNode();
      case Exec(sends) => state := ExecStep(cfg, state, sends, input);
      case Reviewing => ReviewNode(input);
      case Finalize => state := FinalizeStep(state, input);
      case FailReworkLimit => state := Stop(state, Failed(ReworkLimitExceeded));
      case End =>
    }

    /** `invoke`: visits nodes until the graph ends, which it does for every
        environment, within the proved number of visits. */
    method Invoke(inputs: nat -> Input) returns (visits: nat)
      requires state == Initial()
      modifies this
      ensures state == Run(cfg, seq(visits, (i: nat) => inputs(i)))
      ensures state.node.End? && state.ending != Running && visits <= MAX_VISITS
    {
      visits := 0;
      RunKeeps(cfg, []);
      while !state.node.End?
        invariant state == Run(cfg, seq(visits, (i: nat) => inputs(i)))
        invariant Inv(cfg, state) && Measure(state) <= MAX_VISITS - visits
        decreases Measure(state)
      {
        StepKeeps(cfg, state, inputs(visits));
        StepMeasure(cfg, state, inputs(visits));
        MeasurePositive(cfg, state);
        Visit(inputs(visits));
        MeasurePositive(cfg, state);
        assert seq(visits + 1, (i: nat) => inputs(i))[..visits] == seq(visits, (i: nat) => inputs(i));
        visits := visits + 1;
      }
      MeasurePositive(cfg, state);
    }
  }
}
