/** The dependency relation of a plan, its cycles, and the topological sort of
    `_assert_acyclic`. */
module Dependencies {
  import opened Plans

  /** Every subtask identifier with the list of identifiers it depends on. */
  type Graph = map<Id, seq<Id>>

  /** The subtask with a given identifier. */
  function Find(plan: Plan, n: Id): SubtaskSpec
    requires n in Ids(plan)
  {
    if plan[|plan| - 1].id == n then plan[|plan| - 1] else Find(plan[..|plan| - 1], n)
  }

  lemma {:induction false} FindAt(plan: Plan, i: nat)
    requires UniqueIds(plan) && i < |plan|
    ensures plan[i].id in Ids(plan) && Find(plan, plan[i].id) == plan[i]
  {
    assert plan[i] in plan;
    if i < |plan| - 1 {
      FindAt(plan[..|plan| - 1], i);
    }
  }

  /** Every known identifier stands at some position. */
  lemma Position(plan: Plan, n: Id) returns (i: nat)
    requires n in Ids(plan)
    ensures i < |plan| && plan[i].id == n
  {
    var s :| s in plan && s.id == n;
    i :| 0 <= i < |plan| && plan[i] == s;
  }

  ghost function GraphOf(plan: Plan): Graph {
    map n | n in Ids(plan) :: Find(plan, n).deps
  }

  ghost predicate DepsInside(g: Graph) {
    forall a, d {:trigger d in g[a]} :: a in g && d in g[a] ==> d in g
  }

  lemma GraphDepsInside(plan: Plan)
    requires UniqueIds(plan) && DepsExist(plan)
    ensures DepsInside(GraphOf(plan))
  {
    var g := GraphOf(plan);
    forall a, d | a in g && d in g[a]
      ensures d in g
    {
      var i := Position(plan, a);
      FindAt(plan, i);
      assert plan[i] in plan;
    }
  }

  /** A walk follows dependencies and stays among the known identifiers. */
  ghost predicate Walk(g: Graph, p: seq<Id>) {
    && p != []
    && (forall i :: 0 <= i < |p| ==> p[i] in g)
    && (forall i :: 0 <= i < |p| - 1 ==> p[i + 1] in g[p[i]])
  }

  ghost predicate Cycle(g: Graph, p: seq<Id>) {
    Walk(g, p) && |p| >= 2 && p[0] == p[|p| - 1]
  }

  ghost predicate Acyclic(g: Graph) {
    forall p :: !Cycle(g, p)
  }

  lemma {:induction false} SubsetSize(a: set<Id>, b: set<Id>)
    requires a <= b
    ensures |a| <= |b|
  {
    assert b == a + (b - a);
  }

  /** Pigeonhole: a sequence longer than the set it draws from repeats an element. */
  lemma {:induction false} Repeats(p: seq<Id>, s: set<Id>) returns (i: nat, j: nat)
    requires |p| > |s|
    requires forall k :: 0 <= k < |p| ==> p[k] in s
    ensures i < j < |p| && p[i] == p[j]
    decreases |p|
  {
    var last := |p| - 1;
    if k :| 0 <= k < last && p[k] == p[last] {
      i, j := k, last;
    } else {
      i, j := Repeats(p[..last], s - {p[last]});
    }
  }

  /** A walk in an acyclic graph visits no identifier twice, so it is short. */
  lemma WalkIsShort(g: Graph, p: seq<Id>)
    requires Acyclic(g) && Walk(g, p)
    ensures |p| <= |g|
  {
    if |p| > |g.Keys| {
      var i, j := Repeats(p, g.Keys);
      assert Cycle(g, p[i..j + 1]);
      assert false;
    }
  }

  ghost predicate DependsInto(g: Graph, a: Id, s: set<Id>) {
    exists b :: a in g && b in s && b in g[a]
  }

  /** A walk of any length inside a set in which every member has a dependency. */
  lemma {:induction false} LongWalk(g: Graph, s: set<Id>, n: nat) returns (p: seq<Id>)
    requires s != {} && s <= g.Keys
    requires forall a {:trigger DependsInto(g, a, s)} :: a in s ==> DependsInto(g, a, s)
    ensures |p| == n + 1 && Walk(g, p) && forall i :: 0 <= i < |p| ==> p[i] in s
  {
    if n == 0 {
      var a :| a in s;
      p := [a];
    } else {
      var q := LongWalk(g, s, n - 1);
      assert DependsInto(g, q[n - 1], s);
      var b :| b in s && b in g[q[n - 1]];
      p := q + [b];
    }
  }

  /** Where every member of a nonempty set depends on another member, a cycle exists. */
  lemma StuckSetHasCycle(g: Graph, s: set<Id>)
    requires s != {} && s <= g.Keys
    requires forall a {:trigger DependsInto(g, a, s)} :: a in s ==> DependsInto(g, a, s)
    ensures !Acyclic(g)
  {
    var p := LongWalk(g, s, |s|);
    var i, j := Repeats(p, s);
    assert Cycle(g, p[i..j + 1]);
  }

  /** In an acyclic graph every nonempty set has a member that depends on no member. */
  lemma MinimalMember(g: Graph, s: set<Id>) returns (m: Id)
    requires Acyclic(g) && s != {} && s <= g.Keys
    ensures m in s && forall b :: b in g[m] ==> b !in s
  {
    if forall a {:trigger DependsInto(g, a, s)} :: a in s ==> DependsInto(g, a, s) {
      StuckSetHasCycle(g, s);
      assert false;
    }
    m :| m in s && !DependsInto(g, m, s);
  }

  /** A rank that falls along every dependency excludes cycles. */
  lemma RankExcludesCycles(g: Graph, rank: map<Id, int>)
    requires rank.Keys == g.Keys
    requires forall a, b :: a in g && b in g[a] && b in g ==> rank[b] < rank[a]
    ensures Acyclic(g)
  {
    forall p | Cycle(g, p)
      ensures false
    {
      RankFalls(g, rank, p);
    }
  }

  lemma {:induction false} RankFalls(g: Graph, rank: map<Id, int>, p: seq<Id>)
    requires rank.Keys == g.Keys
    requires forall a, b :: a in g && b in g[a] && b in g ==> rank[b] < rank[a]
    requires Walk(g, p) && |p| >= 2
    ensures rank[p[|p| - 1]] < rank[p[0]]
  {
    assert p[1] in g[p[0]];
    if |p| > 2 {
      var q := p[1..];
      forall i | 0 <= i < |q| - 1
        ensures q[i + 1] in g[q[i]]
      {
        assert q[i] == p[i + 1] && q[i + 1] == p[(i + 1) + 1];
      }
      RankFalls(g, rank, q);
    }
  }

  /** Removing subtasks and dependencies keeps a graph acyclic. */
  lemma SubgraphAcyclic(g: Graph, h: Graph)
    requires Acyclic(g) && h.Keys <= g.Keys
    requires forall a, b :: a in h && b in h[a] ==> b in g[a]
    ensures Acyclic(h)
  {
    forall p | Cycle(h, p)
      ensures false
    {
      assert Cycle(g, p);
    }
  }

  // ----- Kahn's algorithm -----

  /** How often `x` is listed in `s`. */
  ghost function Count(s: seq<Id>, x: Id): nat {
    if s == [] then 0 else Count(s[..|s| - 1], x) + if s[|s| - 1] == x then 1 else 0
  }

  lemma CountAppend(s: seq<Id>, y: Id, x: Id)
    ensures Count(s + [y], x) == Count(s, x) + if y == x then 1 else 0
  {
    assert (s + [y])[..|s|] == s;
  }

  lemma {:induction false} CountListed(s: seq<Id>, x: Id)
    ensures Count(s, x) > 0 <==> x in s
  {
    if s != [] {
      assert s == s[..|s| - 1] + [s[|s| - 1]];
      CountListed(s[..|s| - 1], x);
    }
  }

  lemma {:induction false} CountPrefix(s: seq<Id>, k: nat, x: Id)
    requires k < |s|
    ensures Count(s[..k], x) + (if s[k] == x then 1 else 0) <= Count(s, x)
  {
    if k == |s| - 1 {
    } else {
      var t := s[..|s| - 1];
      assert t[..k] == s[..k];
      CountPrefix(t, k, x);
    }
  }

  /** How many entries of a dependency list are still open; repeated entries count. */
  ghost function Open(deps: seq<Id>, done: set<Id>): nat {
    if deps == [] then 0
    else Open(deps[..|deps| - 1], done) + if deps[|deps| - 1] in done then 0 else 1
  }

  lemma {:induction false} OpenAfter(deps: seq<Id>, done: set<Id>, v: Id)
    requires v !in done
    ensures Open(deps, done) == Open(deps, done + {v}) + Count(deps, v)
  {
    if deps != [] {
      OpenAfter(deps[..|deps| - 1], done, v);
    }
  }

  lemma {:induction false} OpenIsZero(deps: seq<Id>, done: set<Id>)
    ensures Open(deps, done) == 0 <==> forall d :: d in deps ==> d in done
  {
    if deps != [] {
      assert deps == deps[..|deps| - 1] + [deps[|deps| - 1]];
      OpenIsZero(deps[..|deps| - 1], done);
    }
  }

  lemma {:induction false} OpenEntry(deps: seq<Id>, done: set<Id>) returns (d: Id)
    requires Open(deps, done) > 0
    ensures d in deps && d !in done
  {
    d := deps[|deps| - 1];
    if d in done {
      d := OpenEntry(deps[..|deps| - 1], done);
    }
  }

  lemma {:induction false} OpenNone(deps: seq<Id>)
    ensures Open(deps, {}) == |deps|
  {
    if deps != [] {
      OpenNone(deps[..|deps| - 1]);
    }
  }

  /** The entries of subtask `k` met when the build stands at entry `j` of subtask `i`. */
  ghost function Met(plan: Plan, i: nat, j: nat, k: nat): seq<Id>
    requires k < |plan| && (i < |plan| ==> j <= |plan[i].deps|)
  {
    if k < i then plan[k].deps else if k == i then plan[k].deps[..j] else []
  }

  ghost predicate DegreesAt(plan: Plan, i: nat, j: nat, indegree: map<Id, int>)
    requires i < |plan| ==> j <= |plan[i].deps|
  {
    && indegree.Keys == Ids(plan)
    && forall k :: 0 <= k < |plan| ==> indegree[plan[k].id] == |Met(plan, i, j, k)|
  }

  ghost predicate EdgesAt(plan: Plan, i: nat, j: nat, edges: map<Id, seq<Id>>)
    requires i < |plan| ==> j <= |plan[i].deps|
  {
    && edges.Keys == Ids(plan)
    && (forall d, n :: d in edges && n in edges[d] ==> n in Ids(plan))
    && (forall d, k {:trigger Count(edges[d], plan[k].id)} :: d in edges && 0 <= k < |plan| ==>
          Count(edges[d], plan[k].id) == Count(Met(plan, i, j, k), d))
  }

  lemma AddEntryCount(plan: Plan, i: nat, j: nat, edges: map<Id, seq<Id>>, d: Id, k: nat)
    requires UniqueIds(plan) && i < |plan| && j < |plan[i].deps| && EdgesAt(plan, i, j, edges)
    requires plan[i].deps[j] in edges && d in edges && k < |plan|
    ensures var dep := plan[i].deps[j];
            Count(edges[dep := edges[dep] + [plan[i].id]][d], plan[k].id) == Count(Met(plan, i, j + 1, k), d)
  {
    var dep := plan[i].deps[j];
    assert Count(edges[d], plan[k].id) == Count(Met(plan, i, j, k), d);
    CountAppend(edges[dep], plan[i].id, plan[k].id);
    CountAppend(plan[i].deps[..j], dep, d);
    assert plan[i].deps[..j + 1] == plan[i].deps[..j] + [dep];
    assert k != i ==> plan[k].id != plan[i].id;
  }

  lemma AddEntry(plan: Plan, i: nat, j: nat, edges: map<Id, seq<Id>>)
    requires UniqueIds(plan) && DepsExist(plan)
    requires i < |plan| && j < |plan[i].deps| && EdgesAt(plan, i, j, edges)
    ensures plan[i].deps[j] in edges
    ensures EdgesAt(plan, i, j + 1, edges[plan[i].deps[j] := edges[plan[i].deps[j]] + [plan[i].id]])
  {
    var dep := plan[i].deps[j];
    assert plan[i] in plan && dep in plan[i].deps;
    var edges' := edges[dep := edges[dep] + [plan[i].id]];
    assert forall d, n :: d in edges' && n in edges'[d] ==> n in edges[d] || n == plan[i].id;
    forall d, k | d in edges' && 0 <= k < |plan|
      ensures Count(edges'[d], plan[k].id) == Count(Met(plan, i, j + 1, k), d)
    {
      AddEntryCount(plan, i, j, edges, d, k);
    }
  }

  lemma AddDegree(plan: Plan, i: nat, j: nat, indegree: map<Id, int>)
    requires UniqueIds(plan) && i < |plan| && j < |plan[i].deps| && DegreesAt(plan, i, j, indegree)
    ensures DegreesAt(plan, i, j + 1, indegree[plan[i].id := indegree[plan[i].id] + 1])
  {
    var indegree' := indegree[plan[i].id := indegree[plan[i].id] + 1];
    forall k | 0 <= k < |plan|
      ensures indegree'[plan[k].id] == |Met(plan, i, j + 1, k)|
    {
      assert indegree[plan[k].id] == |Met(plan, i, j, k)|;
    }
  }

  lemma NextSubtask(plan: Plan, i: nat, indegree: map<Id, int>, edges: map<Id, seq<Id>>)
    requires i < |plan|
    requires DegreesAt(plan, i, |plan[i].deps|, indegree) && EdgesAt(plan, i, |plan[i].deps|, edges)
    ensures DegreesAt(plan, i + 1, 0, indegree) && EdgesAt(plan, i + 1, 0, edges)
  {
    forall k | 0 <= k < |plan|
      ensures Met(plan, i, |plan[i].deps|, k) == Met(plan, i + 1, 0, k)
    {
    }
  }

  /** Builds the reverse edge lists and the in-degrees, one dependency entry at a time. */
  method BuildEdges(plan: Plan) returns (indegree: map<Id, int>, edges: map<Id, seq<Id>>)
    requires UniqueIds(plan) && DepsExist(plan)
    ensures DegreesAt(plan, |plan|, 0, indegree) && EdgesAt(plan, |plan|, 0, edges)
  {
    indegree := map n | n in Ids(plan) :: 0;
    edges := map n | n in Ids(plan) :: [];
    for i := 0 to |plan|
      invariant DegreesAt(plan, i, 0, indegree) && EdgesAt(plan, i, 0, edges)
    {
      for j := 0 to |plan[i].deps|
        invariant DegreesAt(plan, i, j, indegree) && EdgesAt(plan, i, j, edges)
      {
        AddEntry(plan, i, j, edges);
        AddDegree(plan, i, j, indegree);
        var dep := plan[i].deps[j];
        edges := edges[dep := edges[dep] + [plan[i].id]];
        indegree := indegree[plan[i].id := indegree[plan[i].id] + 1];
      }
      NextSubtask(plan, i, indegree, edges);
    }
  }

  /** The reverse edge lists of a graph. */
  ghost predicate Reverses(g: Graph, edges: map<Id, seq<Id>>) {
    && edges.Keys == g.Keys
    && (forall d, n :: d in g && n in edges[d] ==> n in g)
    && (forall d, n :: d in g && n in g ==> Count(edges[d], n) == Count(g[n], d))
  }

  /** The queue holds, once each, the untouched identifiers whose in-degree is zero. */
  ghost predicate Queued(g: Graph, indegree: map<Id, int>, queue: seq<Id>, done: set<Id>) {
    && indegree.Keys == g.Keys
    && (forall n :: n in queue <==> n in g && n !in done && indegree[n] == 0)
    && (forall i, j :: 0 <= i < j < |queue| ==> queue[i] != queue[j])
  }

  /** `done` has been popped in the order given by `rank`. */
  ghost predicate Ranked(g: Graph, done: set<Id>, rank: map<Id, int>) {
    && done <= g.Keys && rank.Keys == done
    && (forall n, d {:trigger d in g[n]} :: n in done && d in g[n] ==> d in done && rank[d] < rank[n])
    && (forall n {:trigger rank[n]} :: n in done ==> rank[n] < |done|)
  }

  /** The in-degrees count the entries that are not `done`. */
  ghost predicate Counted(g: Graph, indegree: map<Id, int>, done: set<Id>) {
    && indegree.Keys == g.Keys
    && forall n {:trigger indegree[n]} :: n in g ==> indegree[n] == Open(g[n], done)
  }

  ghost predicate Sorted(g: Graph, indegree: map<Id, int>, done: set<Id>, rank: map<Id, int>) {
    Ranked(g, done, rank) && Counted(g, indegree, done)
  }

  /** The state of the sort between two pops. */
  ghost predicate Progress(g: Graph, indegree: map<Id, int>, queue: seq<Id>, done: set<Id>,
                           rank: map<Id, int>, visited: nat) {
    Sorted(g, indegree, done, rank) && Queued(g, indegree, queue, done) && visited == |done|
  }

  lemma RankNext(g: Graph, done: set<Id>, rank: map<Id, int>, node: Id)
    requires Ranked(g, done, rank) && node in g && node !in done
    requires forall d :: d in g[node] ==> d in done
    ensures |done + {node}| == |done| + 1
    ensures Ranked(g, done + {node}, rank[node := |done|])
  {
    assert |done + {node}| == |done| + 1;
  }

  /** The in-degrees while the successors of the popped `node` are decremented. */
  ghost predicate Decremented(g: Graph, indegree: map<Id, int>, done: set<Id>, node: Id, listed: seq<Id>) {
    && indegree.Keys == g.Keys
    && forall n {:trigger indegree[n]} :: n in g ==>
         indegree[n] == Open(g[n], done) + Count(g[n], node) - Count(listed, n)
  }

  /** No popped identifier still depends on `node`. */
  ghost predicate NoneLeft(g: Graph, done: set<Id>, node: Id) {
    forall n {:trigger Count(g[n], node)} :: n in done ==> n in g && Count(g[n], node) == 0
  }

  lemma DecrementStarts(g: Graph, indegree: map<Id, int>, done: set<Id>, rank: map<Id, int>, node: Id)
    requires Sorted(g, indegree, done, rank) && node in g && node !in done && indegree[node] == 0
    ensures Decremented(g, indegree, done + {node}, node, [])
    ensures NoneLeft(g, done + {node}, node)
  {
    forall n | n in g
      ensures indegree[n] == Open(g[n], done + {node}) + Count(g[n], node) - Count([], n)
      ensures n in done + {node} ==> Count(g[n], node) == 0
    {
      OpenAfter(g[n], done, node);
      OpenIsZero(g[n], done);
      CountListed(g[n], node);
    }
  }

  lemma DecrementEnds(g: Graph, indegree: map<Id, int>, done: set<Id>, rank: map<Id, int>, node: Id,
                      indegree0: map<Id, int>, edges: map<Id, seq<Id>>)
    requires Sorted(g, indegree0, done, rank) && node in g && node !in done && indegree0[node] == 0
    requires Reverses(g, edges) && Decremented(g, indegree, done + {node}, node, edges[node])
    ensures Sorted(g, indegree, done + {node}, rank[node := |done|])
  {
    assert indegree0[node] == Open(g[node], done);
    OpenIsZero(g[node], done);
    RankNext(g, done, rank, node);
    forall n | n in g
      ensures indegree[n] == Open(g[n], done + {node})
    {
    }
  }

  /** Pops the head of the queue: decrements the in-degree of its successors, one
      list entry at a time, and enqueues those that reach zero. */
  method PopNode(ghost g: Graph, edges: map<Id, seq<Id>>, indegree0: map<Id, int>, queue0: seq<Id>,
                 visited0: nat, ghost done: set<Id>, ghost rank: map<Id, int>)
    returns (indegree: map<Id, int>, queue: seq<Id>, visited: nat,
             ghost done': set<Id>, ghost rank': map<Id, int>)
    requires Reverses(g, edges) && Progress(g, indegree0, queue0, done, rank, visited0) && queue0 != []
    ensures Progress(g, indegree, queue, done', rank', visited)
    ensures |g.Keys - done'| < |g.Keys - done|
  {
    var node := queue0[0];
    PopHead(g, indegree0, queue0, done);
    queue, visited := queue0[1..], visited0 + 1;
    done', rank' := done + {node}, rank[node := |done|];
    OneMore(g.Keys, done, node);
    DecrementStarts(g, indegree0, done, rank, node);
    indegree, queue := DecrementAll(g, edges, indegree0, queue, done', node);
    DecrementEnds(g, indegree, done, rank, node, indegree0, edges);
  }

  method DecrementAll(ghost g: Graph, edges: map<Id, seq<Id>>, indegree0: map<Id, int>, queue0: seq<Id>,
                      ghost done: set<Id>, node: Id)
    returns (indegree: map<Id, int>, queue: seq<Id>)
    requires Reverses(g, edges) && node in g && NoneLeft(g, done, node)
    requires Decremented(g, indegree0, done, node, []) && Queued(g, indegree0, queue0, done)
    ensures Decremented(g, indegree, done, node, edges[node]) && Queued(g, indegree, queue, done)
  {
    indegree, queue := indegree0, queue0;
    for k := 0 to |edges[node]|
      invariant Decremented(g, indegree, done, node, edges[node][..k])
      invariant Queued(g, indegree, queue, done)
    {
      indegree, queue := Decrement(g, edges, indegree, queue, done, node, k);
    }
    assert edges[node][..|edges[node]|] == edges[node];
  }

  lemma PopHead(g: Graph, indegree: map<Id, int>, queue: seq<Id>, done: set<Id>)
    requires Queued(g, indegree, queue, done) && queue != []
    ensures queue[0] in g && queue[0] !in done && indegree[queue[0]] == 0
    ensures Queued(g, indegree, queue[1..], done + {queue[0]})
  {
    assert queue[0] in queue;
    assert queue == [queue[0]] + queue[1..];
  }

  method Decrement(ghost g: Graph, edges: map<Id, seq<Id>>, indegree0: map<Id, int>, queue0: seq<Id>,
                   ghost done: set<Id>, node: Id, k: nat)
    returns (indegree: map<Id, int>, queue: seq<Id>)
    requires Reverses(g, edges) && node in g && k < |edges[node]|
    requires NoneLeft(g, done, node)
    requires Decremented(g, indegree0, done, node, edges[node][..k]) && Queued(g, indegree0, queue0, done)
    ensures Decremented(g, indegree, done, node, edges[node][..k + 1]) && Queued(g, indegree, queue, done)
  {
    hide Decremented, NoneLeft, Queued;
    var nxt := edges[node][k];
    StillOpen(g, edges, indegree0, done, node, k);
    QueueNext(g, indegree0, queue0, done, nxt);
    indegree := indegree0[nxt := indegree0[nxt] - 1];
    queue := if indegree[nxt] == 0 then queue0 + [nxt] else queue0;
  }

  /** An identifier joins the queue when its last open entry is met. */
  lemma QueueNext(g: Graph, indegree: map<Id, int>, queue: seq<Id>, done: set<Id>, nxt: Id)
    requires Queued(g, indegree, queue, done) && nxt in g && nxt in indegree && nxt !in done && indegree[nxt] > 0
    ensures Queued(g, indegree[nxt := indegree[nxt] - 1], if indegree[nxt] == 1 then queue + [nxt] else queue, done)
  {
    assert nxt !in queue;
    var longer := queue + [nxt];
    assert forall n :: n in longer <==> n in queue || n == nxt;
  }

  /** The next successor has an open entry for `node`, and one fewer afterwards. */
  lemma StillOpen(g: Graph, edges: map<Id, seq<Id>>, indegree: map<Id, int>, done: set<Id>, node: Id, k: nat)
    requires Reverses(g, edges) && node in g && k < |edges[node]| && NoneLeft(g, done, node)
    requires Decremented(g, indegree, done, node, edges[node][..k])
    ensures var nxt := edges[node][k];
            && nxt in g && nxt in indegree && nxt !in done && indegree[nxt] > 0
            && Decremented(g, indegree[nxt := indegree[nxt] - 1], done, node, edges[node][..k + 1])
  {
    var succ, nxt := edges[node], edges[node][k];
    assert nxt in edges[node];
    CountPrefix(succ, k, nxt);
    assert Count(succ, nxt) == Count(g[nxt], node);
    forall n {:trigger indegree[n]} | n in g
      ensures indegree[nxt := indegree[nxt] - 1][n] == Open(g[n], done) + Count(g[n], node) - Count(succ[..k + 1], n)
    {
      CountNext(succ, k, n);
    }
  }

  lemma CountNext(s: seq<Id>, k: nat, x: Id)
    requires k < |s|
    ensures Count(s[..k + 1], x) == Count(s[..k], x) + if s[k] == x then 1 else 0
  {
    assert s[..k + 1] == s[..k] + [s[k]];
    CountAppend(s[..k], s[k], x);
  }

  lemma BuildMatchesGraph(plan: Plan, indegree: map<Id, int>, edges: map<Id, seq<Id>>)
    requires UniqueIds(plan) && DegreesAt(plan, |plan|, 0, indegree) && EdgesAt(plan, |plan|, 0, edges)
    ensures Reverses(GraphOf(plan), edges)
    ensures Sorted(GraphOf(plan), indegree, {}, map[])
  {
    var g := GraphOf(plan);
    forall n | n in g
      ensures indegree[n] == Open(g[n], {})
      ensures forall d :: d in g ==> Count(edges[d], n) == Count(g[n], d)
    {
      var k := Position(plan, n);
      FindAt(plan, k);
      assert Met(plan, |plan|, 0, k) == plan[k].deps;
      OpenNone(g[n]);
    }
  }

  /** The initial queue, in plan order. */
  method InitialQueue(plan: Plan, indegree: map<Id, int>) returns (queue: seq<Id>)
    requires UniqueIds(plan) && indegree.Keys == Ids(plan)
    ensures Queued(GraphOf(plan), indegree, queue, {})
  {
    queue := [];
    for i := 0 to |plan|
      invariant forall n :: n in queue <==> exists k :: 0 <= k < i && plan[k].id == n && indegree[n] == 0
      invariant forall a, b :: 0 <= a < b < |queue| ==> queue[a] != queue[b]
    {
      if indegree[plan[i].id] == 0 {
        assert plan[i].id !in queue;
        queue := queue + [plan[i].id];
      }
    }
    forall n | n in Ids(plan) && indegree[n] == 0
      ensures n in queue
    {
      var k := Position(plan, n);
    }
  }

  lemma OneMore(all: set<Id>, done: set<Id>, node: Id)
    requires node in all - done
    ensures |done + {node}| == |done| + 1
    ensures |all - (done + {node})| < |all - done|
  {
    assert all - done == (all - (done + {node})) + {node};
  }

  lemma AllOrSome(all: set<Id>, done: set<Id>)
    requires done <= all
    ensures |done| == |all| <==> all - done == {}
  {
    assert all == done + (all - done);
  }

  lemma DryMeansBlocked(g: Graph, indegree: map<Id, int>, done: set<Id>, rank: map<Id, int>, a: Id)
    requires DepsInside(g)
    requires Sorted(g, indegree, done, rank) && Queued(g, indegree, [], done)
    requires a in g && a !in done
    ensures DependsInto(g, a, g.Keys - done)
  {
    assert a !in [];
    var d := OpenEntry(g[a], done);
  }

  /** When the queue runs dry, everything was popped exactly if there is no cycle. */
  lemma QueueRunsDry(g: Graph, indegree: map<Id, int>, done: set<Id>, rank: map<Id, int>, visited: nat)
    requires DepsInside(g) && Progress(g, indegree, [], done, rank, visited)
    ensures Acyclic(g) <==> visited == |indegree|
  {
    var rest := g.Keys - done;
    assert |indegree| == |indegree.Keys|;
    AllOrSome(g.Keys, done);
    if rest == {} {
      assert forall n :: n in g ==> n !in rest;
      assert done == g.Keys;
      RankExcludesCycles(g, rank);
    } else {
      forall a {:trigger DependsInto(g, a, rest)} | a in rest
        ensures DependsInto(g, a, rest)
      {
        DryMeansBlocked(g, indegree, done, rank, a);
      }
      StuckSetHasCycle(g, rest);
    }
  }

  /** `_assert_acyclic`: raises exactly when the dependency relation has a cycle,
      whatever entries a dependency list repeats. */
  method AssertAcyclic(plan: Plan) returns (raised: bool)
    requires UniqueIds(plan) && DepsExist(plan)
    ensures raised <==> !Acyclic(GraphOf(plan))
  {
    ghost var g := GraphOf(plan);
    var indegree, edges := BuildEdges(plan);
    BuildMatchesGraph(plan, indegree, edges);
    GraphDepsInside(plan);
    var queue := InitialQueue(plan, indegree);
    var visited := 0;
    ghost var done: set<Id>, rank: map<Id, int> := {}, map[];
    while queue != []
      invariant Progress(g, indegree, queue, done, rank, visited)
      decreases |g.Keys - done|
    {
      indegree, queue, visited, done, rank := PopNode(g, edges, indegree, queue, visited, done, rank);
    }
    raised := visited != |indegree|;
    QueueRunsDry(g, indegree, done, rank, visited);
  }
}
