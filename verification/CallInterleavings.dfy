/** Parallel gateway calls as a state machine: every interleaving of their steps. */
module CallInterleavings {
  import opened Plans
  import opened CallBudget

  /** Where a call is: it has read the call counter, been granted, passed the precheck,
      had its usage checked against the budget, and been added to it - or it was lost. */
  datatype Stage = Seen(calls: int) | Granted | Cleared | Weighed(tokens: nat, cost: real) | Settled(cost: real) | Lost

  datatype Flight = Flight(role: Role, granted: bool, stage: Stage)

  datatype Machine = Machine(governor: Governor, budget: Budget, flights: seq<Flight>)

  /** Neither an estimate nor a charge is negative. */
  type Cost = c: real | c >= 0.0

  datatype Move =
    | Begin(role: Role)
    | Ask(i: nat)
    | Precheck(i: nat, estTokens: nat, estCost: Cost)
    | Fail(i: nat)
    | Weigh(i: nat, tokens: nat, cost: Cost)
    | Add(i: nat)

  function At(m: Machine, i: nat, stage: Stage): Machine
    requires i < |m.flights|
  {
    m.(flights := m.flights[i := m.flights[i].(stage := stage)])
  }

  /** One step of one call; a step that is not due changes nothing. */
  function Step(m: Machine, move: Move): Machine {
    match move
    case Begin(role) => m.(flights := m.flights + [Flight(role, false, Seen(m.budget.calls))])
    case Ask(i) => if i < |m.flights| && m.flights[i].stage.Seen? then Asked(m, i) else m
    case Precheck(i, tokens, cost) =>
      if i < |m.flights| && m.flights[i].stage.Granted?
      then At(m, i, if CanCall(m.budget, tokens, cost) then Cleared else Lost)
      else m
    case Fail(i) => if i < |m.flights| && m.flights[i].stage.Cleared? then At(m, i, Lost) else m
    case Weigh(i, tokens, cost) =>
      if i < |m.flights| && m.flights[i].stage.Cleared?
      then At(m, i, if Over(m.budget, tokens, cost) then Lost else Weighed(tokens, cost))
      else m
    case Add(i) => if i < |m.flights| && m.flights[i].stage.Weighed? then Added(m, i) else m
  }

  function Asked(m: Machine, i: nat): Machine
    requires i < |m.flights| && m.flights[i].stage.Seen?
  {
    var f := m.flights[i];
    var (g, a) := Reserve(m.governor, f.role, f.stage.calls);
    if Grants(a.decision) then m.(governor := g, flights := m.flights[i := Flight(f.role, true, Granted)])
    else At(m.(governor := g), i, Lost)
  }

  function Added(m: Machine, i: nat): Machine
    requires i < |m.flights| && m.flights[i].stage.Weighed?
  {
    var w := m.flights[i].stage;
    At(m.(budget := Charged(m.budget, w.tokens, w.cost)), i, Settled(w.cost))
  }

  function Run(m: Machine, moves: seq<Move>): Machine {
    if moves == [] then m else Step(Run(m, moves[..|moves| - 1]), moves[|moves| - 1])
  }

  // ----- Counting calls -----

  function Sum(flights: seq<Flight>, weight: Flight -> int): int {
    if flights == [] then 0 else Sum(flights[..|flights| - 1], weight) + weight(flights[|flights| - 1])
  }

  lemma {:induction false} SumUpdate(flights: seq<Flight>, weight: Flight -> int, i: nat, f: Flight)
    requires i < |flights|
    ensures Sum(flights[i := f], weight) == Sum(flights, weight) - weight(flights[i]) + weight(f)
  {
    var n := |flights| - 1;
    if i < n {
      SumUpdate(flights[..n], weight, i, f);
      assert flights[i := f][..n] == flights[..n][i := f];
    } else {
      assert flights[i := f][..n] == flights[..n];
    }
  }

  lemma SumAppend(flights: seq<Flight>, weight: Flight -> int, f: Flight)
    ensures Sum(flights + [f], weight) == Sum(flights, weight) + weight(f)
  {
    assert (flights + [f])[..|flights|] == flights;
  }

  lemma {:induction false} SumAtMost(flights: seq<Flight>, a: Flight -> int, b: Flight -> int, factor: nat)
    requires forall f: Flight :: f in flights ==> a(f) <= factor * b(f)
    ensures Sum(flights, a) <= factor * Sum(flights, b)
  {
    if flights != [] {
      var n := |flights| - 1;
      SumAtMost(flights[..n], a, b, factor);
      assert flights[n] in flights;
    }
  }

  const GRANTED: Flight -> int := (f: Flight) => if f.granted then 1 else 0
  const SETTLED: Flight -> int := (f: Flight) => if f.stage.Settled? then 1 else 0
  const ACTIVE: Flight -> int := (f: Flight) => if f.stage.Settled? || f.stage.Lost? then 0 else 1
  const WEIGHED: Flight -> int := (f: Flight) => if f.stage.Weighed? then f.stage.tokens else 0

  function GrantedTo(role: Role): Flight -> int {
    (f: Flight) => if f.granted && f.role == role then 1 else 0
  }

  /** Calls that may still be settled: those granted, and those that read a counter below the cap. */
  function Potential(cap: int): Flight -> int {
    (f: Flight) => match f.stage
      case Seen(calls) => if calls < cap then 1 else 0
      case Settled(_) => 0
      case Lost => 0
      case _ => 1
  }

  // ----- What the governor guarantees -----

  /** Fewer calls than this must have been seen or reserved for a grant. */
  function Cap(g: Governor): int {
    if !g.complex && Hard(g) > RECOVERY_THRESHOLD then RECOVERY_THRESHOLD else Hard(g)
  }

  ghost predicate WithinLimits(g: Governor) {
    && g.reserved <= Max(0, Cap(g))
    && (!g.complex ==> forall role :: RoleLimit(role).Some? ==> RoleCalls(g, role) <= RoleLimit(role).value)
  }

  lemma ReserveWithinLimits(g: Governor, role: Role, seen: int)
    requires WithinLimits(g)
    ensures var (h, a) := Reserve(g, role, seen);
            && WithinLimits(h) && h.complex == g.complex && h.hardLimit == g.hardLimit
            && (Grants(a.decision) ==> seen < Cap(g))
  {
    var h := Reserve(g, role, seen).0;
    forall r | !h.complex && RoleLimit(r).Some?
      ensures RoleCalls(h, r) <= RoleLimit(r).value
    {
      assert RoleCalls(g, r) <= RoleLimit(r).value;
    }
  }

  /** The counters are the numbers of calls: `base` of them settled before this segment. */
  ghost predicate Counted(m: Machine, base: int) {
    && m.governor.reserved == Sum(m.flights, GRANTED)
    && (forall role :: RoleCalls(m.governor, role) == Sum(m.flights, GrantedTo(role)))
    && m.budget.calls == base + Sum(m.flights, SETTLED)
    && forall f :: f in m.flights ==> Marked(f)
  }

  predicate Marked(f: Flight) {
    && (f.stage.Seen? ==> !f.granted)
    && (!f.stage.Seen? && !f.stage.Lost? ==> f.granted)
  }

  lemma CountedAt(m: Machine, base: int, i: nat, f: Flight, g: Governor, b: Budget)
    requires Counted(m, base) && i < |m.flights|
    requires g.reserved == m.governor.reserved + GRANTED(f) - GRANTED(m.flights[i])
    requires forall role :: RoleCalls(g, role)
                            == RoleCalls(m.governor, role) + GrantedTo(role)(f) - GrantedTo(role)(m.flights[i])
    requires b.calls == m.budget.calls + SETTLED(f) - SETTLED(m.flights[i])
    requires Marked(f)
    ensures Counted(Machine(g, b, m.flights[i := f]), base)
  {
    SumUpdate(m.flights, GRANTED, i, f);
    SumUpdate(m.flights, SETTLED, i, f);
    forall role
      ensures RoleCalls(g, role) == Sum(m.flights[i := f], GrantedTo(role))
    {
      SumUpdate(m.flights, GrantedTo(role), i, f);
    }
  }

  lemma StepCounted(m: Machine, base: int, move: Move)
    requires Counted(m, base)
    ensures Counted(Step(m, move), base)
  {
    hide Counted, Sum;
    match move
    case Begin(role) => BeginCounted(m, base, role);
    case Ask(i) => if i < |m.flights| && m.flights[i].stage.Seen? { AskCounted(m, base, i); }
    case Precheck(i, tokens, cost) =>
      if i < |m.flights| && m.flights[i].stage.Granted? {
        StageCounted(m, base, i, if CanCall(m.budget, tokens, cost) then Cleared else Lost);
      }
    case Fail(i) => if i < |m.flights| && m.flights[i].stage.Cleared? { StageCounted(m, base, i, Lost); }
    case Weigh(i, tokens, cost) =>
      if i < |m.flights| && m.flights[i].stage.Cleared? {
        StageCounted(m, base, i, if Over(m.budget, tokens, cost) then Lost else Weighed(tokens, cost));
      }
    case Add(i) => if i < |m.flights| && m.flights[i].stage.Weighed? { AddCounted(m, base, i); }
  }

  lemma BeginCounted(m: Machine, base: int, role: Role)
    requires Counted(m, base)
    ensures Counted(Step(m, Begin(role)), base)
  {
    hide Sum;
    var f := Flight(role, false, Seen(m.budget.calls));
    SumAppend(m.flights, GRANTED, f);
    SumAppend(m.flights, SETTLED, f);
    forall r
      ensures Sum(m.flights + [f], GrantedTo(r)) == Sum(m.flights, GrantedTo(r))
    {
      SumAppend(m.flights, GrantedTo(r), f);
    }
  }

  lemma AskCounted(m: Machine, base: int, i: nat)
    requires Counted(m, base) && i < |m.flights| && m.flights[i].stage.Seen?
    ensures Counted(Asked(m, i), base)
  {
    var f, next := m.flights[i], Asked(m, i);
    assert f in m.flights && Marked(f);
    CountedAt(m, base, i, next.flights[i], next.governor, m.budget);
  }

  lemma StageCounted(m: Machine, base: int, i: nat, stage: Stage)
    requires Counted(m, base) && i < |m.flights| && !stage.Seen? && !stage.Settled?
    requires m.flights[i].stage.Granted? || m.flights[i].stage.Cleared?
    ensures Counted(At(m, i, stage), base)
  {
    assert m.flights[i] in m.flights && Marked(m.flights[i]);
    CountedAt(m, base, i, m.flights[i].(stage := stage), m.governor, m.budget);
  }

  lemma AddCounted(m: Machine, base: int, i: nat)
    requires Counted(m, base) && i < |m.flights| && m.flights[i].stage.Weighed?
    ensures Counted(Added(m, i), base)
  {
    assert m.flights[i] in m.flights && Marked(m.flights[i]);
    var next := Added(m, i);
    CountedAt(m, base, i, next.flights[i], m.governor, next.budget);
  }

  // ----- Bounds on what is settled -----

  /** At most `width` calls at a time, none of more than `size` tokens. */
  ghost predicate Paced(m: Machine, move: Move, width: nat, size: nat) {
    (move.Begin? ==> Sum(m.flights, ACTIVE) < width) && (move.Weigh? ==> move.tokens <= size)
  }

  ghost predicate PacedRun(m: Machine, moves: seq<Move>, width: nat, size: nat) {
    forall k :: 0 <= k < |moves| ==> Paced(Run(m, moves[..k]), moves[k], width, size)
  }

  /** What is settled and what may still be settled, together. */
  ghost predicate Bounded(m: Machine, callBound: int, tokenBound: int, width: nat, size: nat) {
    && Sum(m.flights, ACTIVE) <= width
    && m.budget.calls + Sum(m.flights, Potential(Cap(m.governor))) <= callBound
    && m.budget.tokens + Sum(m.flights, WEIGHED) <= tokenBound
    && forall f :: f in m.flights && f.stage.Weighed? ==> f.stage.tokens <= size
  }

  lemma Product(a: nat, b: int, c: int)
    requires b <= c
    ensures a * b <= a * c
  {
  }

  lemma PotentialIsActive(flights: seq<Flight>, cap: int)
    ensures Sum(flights, Potential(cap)) <= Sum(flights, ACTIVE)
  {
    SumAtMost(flights, Potential(cap), ACTIVE, 1);
  }

  lemma BoundedAt(m: Machine, callBound: int, tokenBound: int, width: nat, size: nat, i: nat, f: Flight, g: Governor,
                  b: Budget)
    requires Bounded(m, callBound, tokenBound, width, size) && i < |m.flights| && Cap(g) == Cap(m.governor)
    requires ACTIVE(f) <= ACTIVE(m.flights[i]) && (f.stage.Weighed? ==> f.stage.tokens <= size)
    requires b.calls + Potential(Cap(g))(f) <= m.budget.calls + Potential(Cap(g))(m.flights[i])
    requires b.tokens + Sum(m.flights, WEIGHED) + WEIGHED(f) - WEIGHED(m.flights[i]) <= tokenBound
    ensures Bounded(Machine(g, b, m.flights[i := f]), callBound, tokenBound, width, size)
  {
    SumUpdate(m.flights, ACTIVE, i, f);
    SumUpdate(m.flights, WEIGHED, i, f);
    SumUpdate(m.flights, Potential(Cap(g)), i, f);
  }

  lemma BeginBounded(m: Machine, callBound: int, tokenBound: int, width: nat, size: nat, role: Role)
    requires Bounded(m, callBound, tokenBound, width, size) && Sum(m.flights, ACTIVE) < width
    requires callBound >= Cap(m.governor) + width - 1
    ensures Bounded(Step(m, Begin(role)), callBound, tokenBound, width, size)
  {
    hide Sum;
    var f, cap := Flight(role, false, Seen(m.budget.calls)), Cap(m.governor);
    SumAppend(m.flights, ACTIVE, f);
    SumAppend(m.flights, WEIGHED, f);
    SumAppend(m.flights, Potential(cap), f);
    PotentialIsActive(m.flights, cap);
  }

  /** The other calls that are being settled weigh at most `size` each. */
  lemma OthersWeigh(m: Machine, width: nat, size: nat, i: nat)
    requires width >= 1 && Sum(m.flights, ACTIVE) <= width && i < |m.flights| && m.flights[i].stage.Cleared?
    requires forall f :: f in m.flights && f.stage.Weighed? ==> f.stage.tokens <= size
    ensures Sum(m.flights, WEIGHED) <= size * (width - 1)
  {
    var lost := m.flights[i].(stage := Lost);
    var others := m.flights[i := lost];
    SumUpdate(m.flights, ACTIVE, i, lost);
    SumUpdate(m.flights, WEIGHED, i, lost);
    forall f | f in others
      ensures WEIGHED(f) <= size * ACTIVE(f)
    {
      assert f == lost || f in m.flights;
      if f.stage.Weighed? { assert size * ACTIVE(f) == size; }
    }
    SumAtMost(others, WEIGHED, ACTIVE, size);
    Product(size, Sum(others, ACTIVE), width - 1);
  }

  lemma WeighBounded(m: Machine, callBound: int, tokenBound: int, width: nat, size: nat, i: nat, tokens: nat,
                     cost: Cost)
    requires Bounded(m, callBound, tokenBound, width, size) && width >= 1 && tokens <= size
    requires i < |m.flights| && m.flights[i].stage.Cleared?
    requires tokenBound >= m.budget.tokenBudget + size * (width - 1)
    ensures Bounded(Step(m, Weigh(i, tokens, cost)), callBound, tokenBound, width, size)
  {
    OthersWeigh(m, width, size, i);
    var next := Step(m, Weigh(i, tokens, cost));
    BoundedAt(m, callBound, tokenBound, width, size, i, next.flights[i], m.governor, m.budget);
  }

  lemma AskBounded(m: Machine, callBound: int, tokenBound: int, width: nat, size: nat, i: nat)
    requires Bounded(m, callBound, tokenBound, width, size) && WithinLimits(m.governor)
    requires i < |m.flights| && m.flights[i].stage.Seen?
    ensures Bounded(Asked(m, i), callBound, tokenBound, width, size) && WithinLimits(Asked(m, i).governor)
    ensures Cap(Asked(m, i).governor) == Cap(m.governor)
  {
    ReserveWithinLimits(m.governor, m.flights[i].role, m.flights[i].stage.calls);
    var next := Asked(m, i);
    BoundedAt(m, callBound, tokenBound, width, size, i, next.flights[i], next.governor, m.budget);
  }

  /** What every step keeps. */
  lemma StepBounded(m: Machine, move: Move, callBound: int, tokenBound: int, width: nat, size: nat)
    requires Bounded(m, callBound, tokenBound, width, size) && WithinLimits(m.governor) && width >= 1
        && Paced(m, move, width, size)
    requires callBound >= Cap(m.governor) + width - 1 && tokenBound >= m.budget.tokenBudget + size * (width - 1)
    ensures var next := Step(m, move);
            && Bounded(next, callBound, tokenBound, width, size) && WithinLimits(next.governor)
            && Cap(next.governor) == Cap(m.governor) && next.budget.tokenBudget == m.budget.tokenBudget
            && next.budget.costBudget == m.budget.costBudget
  {
    hide Bounded, Sum, WithinLimits, Cap;
    match move
    case Begin(role) => BeginBounded(m, callBound, tokenBound, width, size, role);
    case Ask(i) =>
      if i < |m.flights| && m.flights[i].stage.Seen? { AskBounded(m, callBound, tokenBound, width, size, i); }
    case Precheck(i, tokens, cost) => StageBounded(m, callBound, tokenBound, width, size, i);
    case Fail(i) => StageBounded(m, callBound, tokenBound, width, size, i);
    case Weigh(i, tokens, cost) =>
      if i < |m.flights| && m.flights[i].stage.Cleared? {
        WeighBounded(m, callBound, tokenBound, width, size, i, tokens, cost);
      }
    case Add(i) =>
      if i < |m.flights| && m.flights[i].stage.Weighed? { AddBounded(m, callBound, tokenBound, width, size, i); }
  }

  lemma StageBounded(m: Machine, callBound: int, tokenBound: int, width: nat, size: nat, i: nat)
    requires Bounded(m, callBound, tokenBound, width, size)
    ensures i < |m.flights| && (m.flights[i].stage.Granted? || m.flights[i].stage.Cleared?) ==>
              && Bounded(At(m, i, Lost), callBound, tokenBound, width, size)
              && Bounded(At(m, i, Cleared), callBound, tokenBound, width, size)
  {
    if i < |m.flights| && (m.flights[i].stage.Granted? || m.flights[i].stage.Cleared?) {
      BoundedAt(m, callBound, tokenBound, width, size, i, m.flights[i].(stage := Lost), m.governor, m.budget);
      BoundedAt(m, callBound, tokenBound, width, size, i, m.flights[i].(stage := Cleared), m.governor, m.budget);
    }
  }

  lemma AddBounded(m: Machine, callBound: int, tokenBound: int, width: nat, size: nat, i: nat)
    requires Bounded(m, callBound, tokenBound, width, size) && i < |m.flights| && m.flights[i].stage.Weighed?
    ensures Bounded(Added(m, i), callBound, tokenBound, width, size)
  {
    var next := Added(m, i);
    BoundedAt(m, callBound, tokenBound, width, size, i, next.flights[i], m.governor, next.budget);
  }

  // ----- Main results -----

  /** A segment starts with a new governor and no calls under way. */
  ghost predicate Start(m: Machine) {
    && m.flights == [] && m.governor.reserved == 0 && m.governor.roleCalls == map[]
    && m.budget.tokens <= m.budget.tokenBudget
  }

  lemma StepWithinLimits(m: Machine, move: Move)
    requires WithinLimits(m.governor)
    ensures var g := Step(m, move).governor;
            WithinLimits(g) && g.complex == m.governor.complex && g.hardLimit == m.governor.hardLimit
  {
    hide WithinLimits;
    if move.Ask? && move.i < |m.flights| && m.flights[move.i].stage.Seen? {
      ReserveWithinLimits(m.governor, m.flights[move.i].role, m.flights[move.i].stage.calls);
    }
  }

  lemma {:induction false} RunCounted(m: Machine, moves: seq<Move>)
    requires Start(m)
    ensures Counted(Run(m, moves), m.budget.calls) && WithinLimits(Run(m, moves).governor)
    ensures Run(m, moves).governor.complex == m.governor.complex
            && Run(m, moves).governor.hardLimit == m.governor.hardLimit
  {
    if moves != [] {
      hide Counted, WithinLimits, Step;
      var n := |moves| - 1;
      RunCounted(m, moves[..n]);
      var before := Run(m, moves[..n]);
      StepCounted(before, m.budget.calls, moves[n]);
      StepWithinLimits(before, moves[n]);
    }
  }

  /** In every interleaving, the granted calls never exceed the cap nor a role's grants its
      limit; and what a segment settles never exceeds what it was granted, so a run that
      started with no calls settles no more than the cap. */
  lemma GrantsStayWithinLimits(m: Machine, moves: seq<Move>)
    requires Start(m)
    ensures var end := Run(m, moves);
            && Sum(end.flights, GRANTED) <= Max(0, Cap(m.governor))
            && (!m.governor.complex ==>
                  forall role :: RoleLimit(role).Some? ==> Sum(end.flights, GrantedTo(role)) <= RoleLimit(role).value)
            && end.budget.calls <= m.budget.calls + Max(0, Cap(m.governor))
  {
    RunCounted(m, moves);
    var end := Run(m, moves);
    assert Cap(end.governor) == Cap(m.governor);
    forall f | f in end.flights
      ensures SETTLED(f) <= 1 * GRANTED(f)
    {
      assert Marked(f);
    }
    SumAtMost(end.flights, SETTLED, GRANTED, 1);
    forall role | !m.governor.complex && RoleLimit(role).Some?
      ensures Sum(end.flights, GrantedTo(role)) <= RoleLimit(role).value
    {
      assert RoleCalls(end.governor, role) <= RoleLimit(role).value;
    }
  }

  lemma FrontPaced(m: Machine, moves: seq<Move>, width: nat, size: nat)
    requires moves != [] && PacedRun(m, moves, width, size)
    ensures PacedRun(m, moves[..|moves| - 1], width, size)
    ensures Paced(Run(m, moves[..|moves| - 1]), moves[|moves| - 1], width, size)
  {
    var front := moves[..|moves| - 1];
    forall k | 0 <= k < |front|
      ensures Paced(Run(m, front[..k]), front[k], width, size)
    {
      assert front[..k] == moves[..k] && Paced(Run(m, moves[..k]), moves[k], width, size);
    }
  }

  lemma {:induction false} RunBounded(m: Machine, moves: seq<Move>, width: nat, size: nat)
    requires Start(m) && width >= 1 && PacedRun(m, moves, width, size)
    ensures var end := Run(m, moves);
            && Bounded(end, Max(m.budget.calls, Cap(m.governor) + width - 1),
                       m.budget.tokenBudget + size * (width - 1), width, size)
            && WithinLimits(end.governor) && Cap(end.governor) == Cap(m.governor)
            && end.budget.tokenBudget == m.budget.tokenBudget && end.budget.costBudget == m.budget.costBudget
  {
    if moves == [] {
      Product(size, 0, width - 1);
    } else {
      hide Bounded, WithinLimits, Cap;
      var n := |moves| - 1;
      FrontPaced(m, moves, width, size);
      RunBounded(m, moves[..n], width, size);
      StepBounded(Run(m, moves[..n]), moves[n], Max(m.budget.calls, Cap(m.governor) + width - 1),
                  m.budget.tokenBudget + size * (width - 1), width, size);
    }
  }

  lemma {:induction false} SumNatural(flights: seq<Flight>, cap: int)
    ensures Sum(flights, Potential(cap)) >= 0 && Sum(flights, WEIGHED) >= 0
  {
    if flights != [] {
      SumNatural(flights[..|flights| - 1], cap);
    }
  }

  /** A segment that starts from `k` settled calls with at most `width` at a time settles no
      further past the cap than the smaller of `k` and `width - 1`, and no more tokens than
      the budget and `width - 1` calls' worth; with one call at a time it overshoots neither. */
  lemma SegmentOvershoot(m: Machine, moves: seq<Move>, width: nat, size: nat)
    requires Start(m) && width >= 1 && PacedRun(m, moves, width, size)
    ensures Run(m, moves).budget.calls <= Max(m.budget.calls, Cap(m.governor) + Min(m.budget.calls, width - 1))
    ensures Run(m, moves).budget.tokens <= m.budget.tokenBudget + size * (width - 1)
  {
    RunBounded(m, moves, width, size);
    SumNatural(Run(m, moves).flights, Cap(m.governor));
    GrantsStayWithinLimits(m, moves);
  }

  /** The same in numbers: whatever the interleaving, a run that is not complex is granted
      at most 16 calls, four of them to researchers, three to executors and two to any
      other listed role. */
  lemma GrantsInNumbers(m: Machine, moves: seq<Move>)
    requires Start(m) && !m.governor.complex
    ensures var flights := Run(m, moves).flights;
            && Sum(flights, GRANTED) <= 16 && Sum(flights, GrantedTo(Researcher)) <= 4
            && Sum(flights, GrantedTo(Executor)) <= 3 && Sum(flights, GrantedTo(Planner)) <= 2
            && Sum(flights, GrantedTo(Supervisor)) <= 2 && Sum(flights, GrantedTo(Reviewer)) <= 2
  {
    hide Run;
    GrantsStayWithinLimits(m, moves);
    var flights := Run(m, moves).flights;
    assert forall role :: RoleLimit(role).Some? ==> Sum(flights, GrantedTo(role)) <= RoleLimit(role).value;
  }
}
