/** `calibrate_plan_capabilities`: relabelling downstream verification work that a
    planner called a code change, while the labels change under the scan. */
module Calibration {
  import opened Plans
  import opened Dependencies

  type Labels = map<Id, Capability>

  ghost function LabelsOf(plan: Plan): Labels {
    map n | n in Ids(plan) :: Find(plan, n).capability
  }

  /** A dependency path from `p[0]` that avoids `seen` and ends at a code change. */
  ghost predicate ChangePath(g: Graph, labels: Labels, p: seq<Id>, seen: set<Id>) {
    && |p| >= 2 && Walk(g, p)
    && (forall i :: 1 <= i < |p| ==> p[i] !in seen)
    && p[|p| - 1] in labels && labels[p[|p| - 1]] == CodeChange
  }

  ghost predicate Reaches(g: Graph, labels: Labels, a: Id, seen: set<Id>) {
    exists p :: ChangePath(g, labels, p, seen) && p[0] == a
  }

  method Lookup(plan: Plan, id: Id) returns (r: Option<SubtaskSpec>)
    requires UniqueIds(plan)
    ensures r.None? ==> id !in Ids(plan)
    ensures r.Some? ==> r.value in plan && r.value.id == id
  {
    for i := 0 to |plan|
      invariant forall k :: 0 <= k < i ==> plan[k].id != id
    {
      if plan[i].id == id { return Some(plan[i]); }
    }
    r := None;
  }

  /** What the scan of `a`'s first dependencies has excluded. */
  ghost predicate Excluded(g: Graph, labels: Labels, deps: seq<Id>, j: nat, seen: set<Id>)
    requires j <= |deps|
  {
    forall d {:trigger d in deps[..j]} :: d in deps[..j] && d in g && d !in seen ==>
      d in labels && labels[d] != CodeChange && !Reaches(g, labels, d, seen + set x | x in deps)
  }

  /** A path that avoids more also avoids less. */
  lemma ReachesMonotone(g: Graph, labels: Labels, a: Id, few: set<Id>, many: set<Id>)
    requires few <= many && Reaches(g, labels, a, many)
    ensures Reaches(g, labels, a, few)
  {
    var p :| ChangePath(g, labels, p, many) && p[0] == a;
    assert ChangePath(g, labels, p, few);
  }

  /** The last direct dependency on a path starts a tail that meets no direct dependency. */
  lemma {:induction false} LastDirect(g: Graph, labels: Labels, p: seq<Id>, deps: seq<Id>, seen: set<Id>)
    returns (k: nat)
    requires ChangePath(g, labels, p, seen) && p[1] in deps
    ensures 1 <= k < |p| && p[k] in deps && p[k] in g && p[k] !in seen
    ensures k < |p| - 1 ==> Reaches(g, labels, p[k], seen + set x | x in deps)
  {
    k := |p| - 1;
    while p[k] !in deps
      invariant 1 <= k < |p|
      invariant forall i :: k < i < |p| ==> p[i] !in deps
      decreases k
    {
      k := k - 1;
    }
    if k < |p| - 1 {
      var q := p[k..];
      assert forall i :: 0 <= i < |q| - 1 ==> q[i + 1] in g[q[i]] by {
        forall i | 0 <= i < |q| - 1
          ensures q[i + 1] in g[q[i]]
        {
          assert q[i] == p[k + i] && q[i + 1] == p[(k + i) + 1];
        }
      }
      assert ChangePath(g, labels, q, seen + set x | x in deps);
    }
  }

  lemma PathIsNotExcluded(g: Graph, labels: Labels, p: seq<Id>, seen: set<Id>)
    requires ChangePath(g, labels, p, seen)
    ensures !Excluded(g, labels, g[p[0]], |g[p[0]]|, seen)
  {
    var deps := g[p[0]];
    assert p[0 + 1] in deps;
    var k := LastDirect(g, labels, p, deps, seen);
    assert deps[..|deps|] == deps;
    assert p[k] in deps[..|deps|];
  }

  /** With every direct dependency excluded there is no path at all. */
  lemma AllExcluded(g: Graph, labels: Labels, a: Id, seen: set<Id>)
    requires a in g && Excluded(g, labels, g[a], |g[a]|, seen)
    ensures !Reaches(g, labels, a, seen)
  {
    forall p | ChangePath(g, labels, p, seen) && p[0] == a
      ensures false
    {
      PathIsNotExcluded(g, labels, p, seen);
    }
  }

  /** The visited set after the first `j` dependencies. */
  ghost function After(deps: seq<Id>, j: nat, seen: set<Id>): set<Id>
    requires j <= |deps|
  {
    if j == 0 then seen else After(deps, j - 1, seen) + {deps[j - 1]}
  }

  lemma {:induction false} AfterMembers(deps: seq<Id>, j: nat, seen: set<Id>)
    requires j <= |deps|
    ensures After(deps, j, seen) == seen + set x | x in deps[..j]
  {
    if j > 0 {
      AfterMembers(deps, j - 1, seen);
      assert deps[..j] == deps[..j - 1] + [deps[j - 1]];
    }
  }

  lemma AfterStep(deps: seq<Id>, j: nat, seen: set<Id>)
    requires j < |deps|
    ensures deps[j] in After(deps, j, seen) ==> After(deps, j + 1, seen) == After(deps, j, seen)
    ensures deps[j] !in After(deps, j, seen) ==> After(deps, j + 1, seen) == After(deps, j, seen) + {deps[j]}
  {
    assert deps[j] in After(deps, j, seen) ==> After(deps, j, seen) + {deps[j]} == After(deps, j, seen);
  }

  /** A dependency met before, unknown, or searched without success is excluded. */
  lemma ExcludeNext(g: Graph, labels: Labels, deps: seq<Id>, j: nat, seen: set<Id>, visited: set<Id>)
    requires j < |deps| && Excluded(g, labels, deps, j, seen)
    requires visited == After(deps, j, seen)
    requires deps[j] in visited || deps[j] !in g ||
             (deps[j] in labels && labels[deps[j]] != CodeChange &&
              !Reaches(g, labels, deps[j], visited + {deps[j]}))
    ensures Excluded(g, labels, deps, j + 1, seen)
  {
    var d, all := deps[j], seen + set x | x in deps;
    assert deps[..j + 1] == deps[..j] + [d];
    AfterMembers(deps, j, seen);
    if Reaches(g, labels, d, all) {
      ReachesMonotone(g, labels, d, visited + {d}, all);
    }
  }

  /** One step in front of a path that avoids `seen`. */
  lemma StepReaches(g: Graph, labels: Labels, a: Id, d: Id, seen: set<Id>, more: set<Id>)
    requires a in g && d in g[a] && d in g && d !in seen && seen <= more && d in labels
    requires labels[d] == CodeChange || Reaches(g, labels, d, more)
    ensures Reaches(g, labels, a, seen)
  {
    if labels[d] == CodeChange {
      assert ChangePath(g, labels, [a, d], seen);
    } else {
      var p :| ChangePath(g, labels, p, more) && p[0] == d;
      var q := [a] + p;
      forall i | 0 <= i < |q| - 1
        ensures q[i + 1] in g[q[i]]
      {
        if i > 0 {
          assert q[i] == p[i - 1] && q[i + 1] == p[(i - 1) + 1];
        }
      }
      assert ChangePath(g, labels, q, seen);
    }
  }

  /** `has_change_ancestor`: a depth-first search that copies its visited set into each
      recursive call.  It terminates on cyclic plans too, and pruning loses nothing. */
  method HasChangeAncestor(plan: Plan, item: SubtaskSpec, seen: set<Id>) returns (found: bool)
    requires UniqueIds(plan) && item in plan
    ensures found <==> Reaches(GraphOf(plan), LabelsOf(plan), item.id, seen)
    decreases |Ids(plan) - seen|
  {
    ghost var g, labels := GraphOf(plan), LabelsOf(plan);
    Described(plan, item);
    var visited := seen;
    for j := 0 to |item.deps|
      invariant visited == After(item.deps, j, seen)
      invariant Excluded(g, labels, item.deps, j, seen)
    {
      ghost var before := visited;
      var d := item.deps[j];
      AfterStep(item.deps, j, seen);
      if d !in visited {
        visited := visited + {d};
        var dependency := Lookup(plan, d);
        if dependency.Some? {
          Described(plan, dependency.value);
          SmallerRest(Ids(plan), item.deps, j, seen);
          if dependency.value.capability == CodeChange {
            StepReaches(g, labels, item.id, d, seen, visited);
            return true;
          }
          found := HasChangeAncestor(plan, dependency.value, visited);
          if found {
            StepReaches(g, labels, item.id, d, seen, visited);
            return true;
          }
        }
      }
      ExcludeNext(g, labels, item.deps, j, seen, before);
    }
    AllExcluded(g, labels, item.id, seen);
    found := false;
  }

  lemma Described(plan: Plan, item: SubtaskSpec)
    requires UniqueIds(plan) && item in plan
    ensures item.id in Ids(plan)
    ensures GraphOf(plan)[item.id] == item.deps && LabelsOf(plan)[item.id] == item.capability
  {
    var i :| 0 <= i < |plan| && plan[i] == item;
    FindAt(plan, i);
  }

  lemma SmallerRest(all: set<Id>, deps: seq<Id>, j: nat, seen: set<Id>)
    requires j < |deps| && deps[j] in all && deps[j] !in After(deps, j, seen)
    ensures var visited := After(deps, j, seen) + {deps[j]};
            seen <= visited && deps[j] !in seen && |all - visited| < |all - seen|
  {
    AfterMembers(deps, j, seen);
    var visited := After(deps, j, seen) + {deps[j]};
    SubsetSize((all - visited) + {deps[j]}, all - seen);
  }

  // ----- The scan -----

  function AsVerification(s: SubtaskSpec): SubtaskSpec {
    s.(capability := Verification, taskType := Verification)
  }

  /** The plan with the subtasks in `marks` relabelled. */
  ghost function Rewrite(plan: Plan, marks: set<Id>): Plan {
    seq(|plan|, i requires 0 <= i < |plan| => if plan[i].id in marks then AsVerification(plan[i]) else plan[i])
  }

  ghost function Relabel(labels: Labels, marks: set<Id>): Labels {
    map n | n in labels :: if n in marks then Verification else labels[n]
  }

  /** Rewriting changes labels only. */
  lemma RewriteDescribes(plan: Plan, marks: set<Id>)
    requires UniqueIds(plan)
    ensures UniqueIds(Rewrite(plan, marks))
    ensures GraphOf(Rewrite(plan, marks)) == GraphOf(plan)
    ensures LabelsOf(Rewrite(plan, marks)) == Relabel(LabelsOf(plan), marks)
  {
    var r := Rewrite(plan, marks);
    RewriteIds(plan, marks);
    forall n | n in Ids(plan)
      ensures GraphOf(r)[n] == GraphOf(plan)[n]
      ensures LabelsOf(r)[n] == Relabel(LabelsOf(plan), marks)[n]
    {
      var i := Position(plan, n);
      FindAt(plan, i);
      FindAt(r, i);
    }
  }

  lemma RewriteIds(plan: Plan, marks: set<Id>)
    requires UniqueIds(plan)
    ensures UniqueIds(Rewrite(plan, marks)) && Ids(Rewrite(plan, marks)) == Ids(plan)
  {
    var r := Rewrite(plan, marks);
    forall n | n in Ids(plan)
      ensures n in Ids(r)
    {
      var i := Position(plan, n);
      assert r[i] in r;
    }
    forall n | n in Ids(r)
      ensures n in Ids(plan)
    {
      var i := Position(r, n);
      assert plan[i] in plan;
    }
  }

  /** What makes the scan relabel a subtask, under the given labels. */
  ghost predicate Downstream(g: Graph, labels: Labels, s: SubtaskSpec) {
    && s.id in labels && labels[s.id] == CodeChange
    && s.verificationText && Reaches(g, labels, s.id, {})
  }

  /** The subtasks relabelled by the time the scan has passed `n` of them; each test
      reads the labels as they stand at that moment. */
  ghost function Scan(g: Graph, labels: Labels, plan: Plan, n: nat): set<Id>
    requires n <= |plan|
  {
    if n == 0 then {} else ScanStep(g, labels, plan[n - 1], Scan(g, labels, plan, n - 1))
  }

  ghost function ScanStep(g: Graph, labels: Labels, s: SubtaskSpec, marks: set<Id>): set<Id> {
    if Downstream(g, Relabel(labels, marks), s) then marks + {s.id} else marks
  }

  ghost function ScanAll(plan: Plan): set<Id> {
    Scan(GraphOf(plan), LabelsOf(plan), plan, |plan|)
  }

  /** `calibrate_plan_capabilities` for a plan of the given shape. */
  method CalibratePlanCapabilities(plan: Plan, codeChangeShape: bool) returns (r: Plan)
    requires UniqueIds(plan)
    ensures r == if codeChangeShape then Rewrite(plan, ScanAll(plan)) else plan
  {
    r := plan;
    if !codeChangeShape { return; }
    ghost var g, labels := GraphOf(plan), LabelsOf(plan);
    RewriteNothing(plan);
    for i := 0 to |plan|
      invariant r == Rewrite(plan, Scan(g, labels, plan, i))
    {
      r := CalibrateOne(plan, r, i, Scan(g, labels, plan, i));
    }
  }

  method CalibrateOne(ghost plan: Plan, r0: Plan, i: nat, ghost marks: set<Id>) returns (r: Plan)
    requires UniqueIds(plan) && i < |plan| && r0 == Rewrite(plan, marks)
    ensures r == Rewrite(plan, ScanStep(GraphOf(plan), LabelsOf(plan), plan[i], marks))
  {
    RewriteDescribes(plan, marks);
    var item := r0[i];
    Described(r0, item);
    r := r0;
    if item.capability == CodeChange && item.deps != [] {
      var ancestor := HasChangeAncestor(r0, item, {});
      if ancestor && item.verificationText {
        r := r0[i := AsVerification(item)];
        RewriteOneMore(plan, marks, i);
      }
    } else if item.deps == [] {
      AllExcluded(GraphOf(r0), LabelsOf(r0), item.id, {});
    }
  }

  lemma RewriteNothing(plan: Plan)
    ensures Rewrite(plan, {}) == plan
  {
  }

  lemma RewriteOneMore(plan: Plan, marks: set<Id>, i: nat)
    requires UniqueIds(plan) && i < |plan|
    ensures Rewrite(plan, marks + {plan[i].id}) == Rewrite(plan, marks)[i := AsVerification(Rewrite(plan, marks)[i])]
  {
  }

  /** In an acyclic plan some code change at the end of a path has no code-change
      ancestor of its own, so no scan ever relabels it. */
  lemma {:induction false} RootChange(g: Graph, labels: Labels, p: seq<Id>) returns (q: seq<Id>)
    requires Acyclic(g) && ChangePath(g, labels, p, {})
    ensures ChangePath(g, labels, q, {}) && q[0] == p[0] && !Reaches(g, labels, q[|q| - 1], {})
    decreases |g| + 1 - |p|
  {
    WalkIsShort(g, p);
    if Reaches(g, labels, p[|p| - 1], {}) {
      var r :| ChangePath(g, labels, r, {}) && r[0] == p[|p| - 1];
      var longer := p + r[1..];
      JoinedWalk(g, p, r);
      WalkIsShort(g, longer);
      q := RootChange(g, labels, longer);
    } else {
      q := p;
    }
  }

  lemma JoinedWalk(g: Graph, p: seq<Id>, r: seq<Id>)
    requires Walk(g, p) && Walk(g, r) && r[0] == p[|p| - 1]
    ensures Walk(g, p + r[1..])
  {
    var q := p + r[1..];
    forall i | 0 <= i < |q| - 1
      ensures q[i + 1] in g[q[i]]
    {
      if i < |p| - 1 {
        assert q[i] == p[i] && q[i + 1] == p[i + 1];
      } else {
        assert q[i] == r[i - (|p| - 1)] && q[i + 1] == r[i - (|p| - 1) + 1];
      }
    }
  }

  /** The relabelling the source promises, decided by the input labels alone. */
  ghost function Promised(g: Graph, labels: Labels, plan: Plan): set<Id> {
    set s | s in plan && Downstream(g, labels, s) :: s.id
  }

  /** A code-change ancestor of `a` that is not in `marks`. */
  ghost predicate EndsOutside(g: Graph, labels: Labels, a: Id, marks: set<Id>) {
    exists p :: ChangePath(g, labels, p, {}) && p[0] == a && p[|p| - 1] !in marks
  }

  /** An ancestor survives a relabelling exactly if it is not relabelled itself. */
  lemma SurvivorsAreOutside(g: Graph, labels: Labels, a: Id, marks: set<Id>)
    ensures Reaches(g, Relabel(labels, marks), a, {}) <==> EndsOutside(g, labels, a, marks)
  {
    var now := Relabel(labels, marks);
    if Reaches(g, now, a, {}) {
      var p :| ChangePath(g, now, p, {}) && p[0] == a;
      assert ChangePath(g, labels, p, {}) && p[|p| - 1] !in marks;
    }
    if EndsOutside(g, labels, a, marks) {
      var p :| ChangePath(g, labels, p, {}) && p[0] == a && p[|p| - 1] !in marks;
      assert ChangePath(g, now, p, {});
    }
  }

  /** The scan never relabels more than it promises. */
  lemma {:induction false} ScanWithinPromise(g: Graph, labels: Labels, plan: Plan, n: nat)
    requires n <= |plan|
    ensures Scan(g, labels, plan, n) <= Promised(g, labels, plan)
  {
    if n > 0 {
      var marks, s := Scan(g, labels, plan, n - 1), plan[n - 1];
      ScanWithinPromise(g, labels, plan, n - 1);
      SurvivorsAreOutside(g, labels, s.id, marks);
      assert Downstream(g, Relabel(labels, marks), s) ==> Downstream(g, labels, s);
    }
  }

  lemma {:induction false} ScanGrows(g: Graph, labels: Labels, plan: Plan, m: nat, n: nat)
    requires m <= n <= |plan|
    ensures Scan(g, labels, plan, m) <= Scan(g, labels, plan, n)
  {
    if m < n {
      ScanGrows(g, labels, plan, m, n - 1);
    }
  }

  /** Every marked subtask has an ancestor outside the marks. */
  ghost predicate EachEndsOutside(g: Graph, labels: Labels, marks: set<Id>) {
    forall a :: a in marks ==> EndsOutside(g, labels, a, marks)
  }

  /** Whoever has a code-change ancestor then has one outside the marks. */
  lemma OutsideAncestor(g: Graph, labels: Labels, marks: set<Id>, a: Id)
    requires EachEndsOutside(g, labels, marks) && Reaches(g, labels, a, {})
    ensures EndsOutside(g, labels, a, marks)
  {
    var p :| ChangePath(g, labels, p, {}) && p[0] == a;
    var c := p[|p| - 1];
    if c in marks {
      var r :| ChangePath(g, labels, r, {}) && r[0] == c && r[|r| - 1] !in marks;
      JoinedWalk(g, p, r);
      assert ChangePath(g, labels, p + r[1..], {});
    }
  }

  /** If the scan leaves every relabelled subtask an ancestor, it has relabelled all it promises. */
  lemma KeepingIsComplete(g: Graph, labels: Labels, plan: Plan)
    requires UniqueIds(plan) && EachEndsOutside(g, labels, Scan(g, labels, plan, |plan|))
    ensures Scan(g, labels, plan, |plan|) == Promised(g, labels, plan)
  {
    var marks := Scan(g, labels, plan, |plan|);
    ScanWithinPromise(g, labels, plan, |plan|);
    forall a | a in Promised(g, labels, plan)
      ensures a in marks
    {
      var i :| 0 <= i < |plan| && plan[i].id == a && Downstream(g, labels, plan[i]);
      var before := Scan(g, labels, plan, i);
      ScanGrows(g, labels, plan, i, |plan|);
      ScanGrows(g, labels, plan, i + 1, |plan|);
      OutsideAncestor(g, labels, marks, a);
      SurvivorsAreOutside(g, labels, a, before);
      assert EndsOutside(g, labels, a, before);
    }
  }

  /** What the source promises: every relabelled subtask keeps a code-change ancestor. */
  ghost predicate KeepsPromise(plan: Plan) {
    forall a :: a in ScanAll(plan) ==> Reaches(GraphOf(plan), Relabel(LabelsOf(plan), ScanAll(plan)), a, {})
  }

  /** Every marked code change with a code-change ancestor has one that is not of this
      kind itself: a condition on the plan as it comes in. */
  ghost predicate Grounded(plan: Plan) {
    EachEndsOutside(GraphOf(plan), LabelsOf(plan), Promised(GraphOf(plan), LabelsOf(plan), plan))
  }

  /** For every plan, cyclic or not, the promise is kept exactly if the plan is grounded. */
  lemma PromiseKeptIff(plan: Plan)
    requires UniqueIds(plan)
    ensures KeepsPromise(plan) <==> Grounded(plan)
  {
    var g, labels, marks := GraphOf(plan), LabelsOf(plan), ScanAll(plan);
    ScanWithinPromise(g, labels, plan, |plan|);
    forall a
      ensures Reaches(g, Relabel(labels, marks), a, {}) <==> EndsOutside(g, labels, a, marks)
    {
      SurvivorsAreOutside(g, labels, a, marks);
    }
    if KeepsPromise(plan) {
      KeepingIsComplete(g, labels, plan);
    }
  }

  /** On a grounded plan the mutating scan relabels exactly the marked code changes that
      have a code-change ancestor in the input. */
  lemma ScanKeepsPromise(plan: Plan)
    requires UniqueIds(plan) && Grounded(plan)
    ensures ScanAll(plan) == Promised(GraphOf(plan), LabelsOf(plan), plan)
  {
    var g, labels, marks := GraphOf(plan), LabelsOf(plan), ScanAll(plan);
    PromiseKeptIff(plan);
    forall a | a in marks
      ensures EndsOutside(g, labels, a, marks)
    {
      SurvivorsAreOutside(g, labels, a, marks);
    }
    KeepingIsComplete(g, labels, plan);
  }

  /** Acyclic plans are grounded. */
  lemma AcyclicIsGrounded(plan: Plan)
    requires UniqueIds(plan) && Acyclic(GraphOf(plan))
    ensures Grounded(plan) && KeepsPromise(plan)
  {
    var g, labels := GraphOf(plan), LabelsOf(plan);
    forall a | a in Promised(g, labels, plan)
      ensures EndsOutside(g, labels, a, Promised(g, labels, plan))
    {
      var p :| ChangePath(g, labels, p, {}) && p[0] == a;
      var q := RootChange(g, labels, p);
    }
    PromiseKeptIff(plan);
  }

  /** The calibrated plan keeps everybody's code-change ancestry; in particular every
      relabelled subtask still has a code-change ancestor. */
  lemma CalibratedKeepsAncestors(plan: Plan, a: Id)
    requires UniqueIds(plan) && Grounded(plan)
    ensures var after := Rewrite(plan, ScanAll(plan));
            && UniqueIds(after) && GraphOf(after) == GraphOf(plan)
            && (Reaches(GraphOf(plan), LabelsOf(after), a, {}) <==> Reaches(GraphOf(plan), LabelsOf(plan), a, {}))
            && (a in ScanAll(plan) ==> Reaches(GraphOf(plan), LabelsOf(after), a, {}))
  {
    var g, labels, marks := GraphOf(plan), LabelsOf(plan), ScanAll(plan);
    ScanKeepsPromise(plan);
    RewriteDescribes(plan, marks);
    SurvivorsAreOutside(g, labels, a, marks);
    if Reaches(g, labels, a, {}) {
      OutsideAncestor(g, labels, marks, a);
    }
  }

  /** A second calibration changes nothing. */
  lemma CalibrationIsIdempotent(plan: Plan)
    requires UniqueIds(plan) && Grounded(plan)
    ensures ScanAll(Rewrite(plan, ScanAll(plan))) == {}
  {
    var g, labels, marks := GraphOf(plan), LabelsOf(plan), ScanAll(plan);
    var once := Rewrite(plan, marks);
    RewriteDescribes(plan, marks);
    ScanKeepsPromise(plan);
    ScanWithinPromise(g, Relabel(labels, marks), once, |once|);
    forall s | s in once
      ensures !Downstream(g, Relabel(labels, marks), s)
    {
      SurvivorsAreOutside(g, labels, s.id, marks);
      var i :| 0 <= i < |once| && once[i] == s;
      assert plan[i] in plan;
    }
  }

  /** The list order does not matter: any arrangement of the same subtasks relabels
      the same ones. */
  lemma CalibrationIgnoresOrder(a: Plan, b: Plan)
    requires UniqueIds(a) && UniqueIds(b) && Grounded(a)
    requires forall s :: s in a <==> s in b
    ensures Grounded(b) && ScanAll(a) == ScanAll(b)
  {
    SameSubtasks(a, b);
    assert Promised(GraphOf(a), LabelsOf(a), a) == Promised(GraphOf(b), LabelsOf(b), b);
    ScanKeepsPromise(a);
    ScanKeepsPromise(b);
  }

  lemma SameSubtasks(a: Plan, b: Plan)
    requires UniqueIds(a) && UniqueIds(b)
    requires forall s :: s in a <==> s in b
    ensures GraphOf(a) == GraphOf(b) && LabelsOf(a) == LabelsOf(b)
  {
    forall n | n in Ids(a)
      ensures GraphOf(a)[n] == GraphOf(b)[n] && LabelsOf(a)[n] == LabelsOf(b)[n]
    {
      var s :| s in a && s.id == n;
      Described(a, s);
      Described(b, s);
    }
    assert Ids(a) == Ids(b);
  }

  /** A plan that is not grounded: two marked code changes that depend on each other are
      both relabelled, and no code change is left. */
  lemma CyclicPlanLosesItsChange(s: SubtaskSpec, t: SubtaskSpec)
    requires s.id != t.id && s.deps == [t.id] && t.deps == [s.id]
    requires s.capability == t.capability == CodeChange && s.verificationText && t.verificationText
    ensures UniqueIds([s, t]) && ScanAll([s, t]) == {s.id, t.id} && !Grounded([s, t]) && !KeepsPromise([s, t])
  {
    var plan := [s, t];
    Described(plan, s);
    Described(plan, t);
    TwoCycleScan(GraphOf(plan), LabelsOf(plan), s, t);
    SurvivorsAreOutside(GraphOf(plan), LabelsOf(plan), s.id, {s.id, t.id});
    PromiseKeptIff(plan);
  }

  lemma TwoCycleScan(g: Graph, labels: Labels, s: SubtaskSpec, t: SubtaskSpec)
    requires s.id != t.id && s.id in g && t.id in g && g[s.id] == [t.id] && g[t.id] == [s.id]
    requires s.id in labels && t.id in labels && labels[s.id] == labels[t.id] == CodeChange
    requires s.verificationText && t.verificationText
    ensures Scan(g, labels, [s, t], 2) == {s.id, t.id}
  {
    assert ChangePath(g, labels, [s.id, t.id], {});
    assert Relabel(labels, {}) == labels;
    assert Scan(g, labels, [s, t], 1) == {s.id};
    var after := Relabel(labels, {s.id});
    assert ChangePath(g, after, [t.id, s.id, t.id], {});
    assert Reaches(g, after, t.id, {});
  }

  /** A subtask that depends, over any number of steps, on a code change. */
  ghost predicate DescendsFromChange(plan: Plan, a: Id)
    requires UniqueIds(plan)
  {
    exists p, s ::
      && Walk(GraphOf(plan), p) && |p| >= 2 && p[0] == a
      && s in plan && s.id == p[|p| - 1] && s.capability == CodeChange
  }

  lemma DescentIsReach(plan: Plan, a: Id)
    requires UniqueIds(plan)
    ensures Reaches(GraphOf(plan), LabelsOf(plan), a, {}) <==> DescendsFromChange(plan, a)
  {
    var g, labels := GraphOf(plan), LabelsOf(plan);
    if Reaches(g, labels, a, {}) {
      var p :| ChangePath(g, labels, p, {}) && p[0] == a;
      var s :| s in plan && s.id == p[|p| - 1];
      Described(plan, s);
      assert Walk(GraphOf(plan), p) && s in plan;
    }
    if DescendsFromChange(plan, a) {
      var p, s :|
        && Walk(GraphOf(plan), p) && |p| >= 2 && p[0] == a
        && s in plan && s.id == p[|p| - 1] && s.capability == CodeChange;
      Described(plan, s);
      assert ChangePath(g, labels, p, {});
    }
  }

  /** What the calibration does to each subtask of a grounded plan: a code change whose text
      speaks of verification becomes a verification exactly if it depends on a code change,
      in label and task type; everything else stays as it is. */
  lemma RelabelsExactly(plan: Plan, i: nat)
    requires UniqueIds(plan) && Grounded(plan) && i < |plan|
    ensures var was, now := plan[i], Rewrite(plan, ScanAll(plan))[i];
            now == if was.capability == CodeChange && was.verificationText && DescendsFromChange(plan, was.id)
                   then was.(capability := Verification, taskType := Verification) else was
  {
    hide Scan, Reaches, DescendsFromChange, Grounded;
    ScanKeepsPromise(plan);
    var s := plan[i];
    Described(plan, s);
    DescentIsReach(plan, s.id);
    if s.id in ScanAll(plan) {
      var t :| t in plan && Downstream(GraphOf(plan), LabelsOf(plan), t) && t.id == s.id;
      assert t == s by {
        var j :| 0 <= j < |plan| && plan[j] == t;
      }
    }
  }
}
