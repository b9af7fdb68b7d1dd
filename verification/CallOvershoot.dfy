/** Exactly when parallel calls settle more than the cap or the token budget allows. */
module CallOvershoot {
  import opened Plans
  import opened CallBudget
  import opened CallInterleavings

  // ----- Building paced runs -----

  /** A run reaches a machine, paced as given. */
  ghost predicate Reaches(m: Machine, moves: seq<Move>, end: Machine, width: nat, size: nat) {
    PacedRun(m, moves, width, size) && Run(m, moves) == end
  }

  lemma NoMoves(m: Machine, width: nat, size: nat)
    ensures Reaches(m, [], m, width, size)
  {
  }

  /** The calls are made in these roles. */
  ghost predicate OnlyRoles(moves: seq<Move>, roles: set<Role>) {
    forall k :: 0 <= k < |moves| && moves[k].Begin? ==> moves[k].role in roles
  }

  lemma OneMove(m: Machine, moves: seq<Move>, move: Move, before: Machine, after: Machine,
                width: nat, size: nat, roles: set<Role>)
    returns (longer: seq<Move>)
    requires Reaches(m, moves, before, width, size) && Step(before, move) == after && Paced(before, move, width, size)
    requires OnlyRoles(moves, roles) && (move.Begin? ==> move.role in roles)
    ensures Reaches(m, longer, after, width, size) && OnlyRoles(longer, roles)
  {
    hide Step, Paced;
    longer := moves + [move];
    assert longer[..|moves|] == moves;
    forall k | 0 <= k < |longer|
      ensures Paced(Run(m, longer[..k]), longer[k], width, size)
    {
      if k < |moves| {
        assert longer[..k] == moves[..k] && Paced(Run(m, moves[..k]), moves[k], width, size);
      }
    }
  }

  /** Nothing is under way. */
  ghost predicate Idle(m: Machine) {
    Sum(m.flights, ACTIVE) == 0
  }

  /** The machine with two more calls. */
  function Pair(g: Governor, b: Budget, done: seq<Flight>, x: Flight, y: Flight): Machine {
    Machine(g, b, done + [x, y])
  }

  lemma PairUpdate(done: seq<Flight>, x: Flight, y: Flight, z: Flight)
    ensures (done + [x, y])[|done|] == x && (done + [x, y])[|done| + 1] == y
    ensures (done + [x, y])[|done| := z] == done + [z, y]
    ensures (done + [x, y])[|done| + 1 := z] == done + [x, z]
  {
  }

  lemma PairStarts(done: seq<Flight>, x: Flight, y: Flight)
    ensures (done + [x]) + [y] == done + [x, y]
    ensures Sum(done + [x], ACTIVE) == Sum(done, ACTIVE) + ACTIVE(x)
  {
    SumAppend(done, ACTIVE, x);
  }

  // ----- Who is granted -----

  /** The role has grants left under the governor. */
  predicate HasGrants(g: Governor, role: Role, n: nat) {
    g.complex || RoleLimit(role).None? || RoleCalls(g, role) + n <= RoleLimit(role).value
  }

  lemma GrantedBelow(g: Governor, role: Role, seen: int)
    requires seen < Cap(g) && g.reserved < Cap(g) && HasGrants(g, role, 1)
    ensures var (h, a) := Reserve(g, role, seen);
            && Grants(a.decision) && h.reserved == g.reserved + 1 && Cap(h) == Cap(g)
            && forall n: nat :: HasGrants(g, role, n + 1) ==> HasGrants(h, role, n)
  {
  }

  lemma BothGranted(g: Governor, role: Role, seen: int) returns (g1: Governor, h: Governor)
    requires seen < Cap(g) && g.reserved + 1 < Cap(g) && HasGrants(g, role, 2)
    ensures Reserve(g, role, seen).0 == g1 && Grants(Reserve(g, role, seen).1.decision)
    ensures Reserve(g1, role, seen).0 == h && Grants(Reserve(g1, role, seen).1.decision)
  {
    assert HasGrants(g, role, 1) && HasGrants(g, role, 1 + 1);
    g1, h := Reserve(g, role, seen).0, Reserve(Reserve(g, role, seen).0, role, seen).0;
    GrantedBelow(g, role, seen);
    GrantedBelow(g1, role, seen);
  }

  /** Two calls that have read the same counter, were both granted and passed the precheck. */
  lemma BothCleared(m: Machine, moves: seq<Move>, start: Machine, role: Role, width: nat, size: nat, roles: set<Role>)
    returns (longer: seq<Move>, h: Governor)
    requires Reaches(m, moves, start, width, size) && OnlyRoles(moves, roles) && role in roles
    requires Idle(start) && width >= 2
    requires start.budget.calls < Cap(start.governor) && start.governor.reserved + 1 < Cap(start.governor)
    requires HasGrants(start.governor, role, 2) && CanCall(start.budget, 0, 0.0)
    ensures var cleared := Flight(role, true, Cleared);
            && Reaches(m, longer, Pair(h, start.budget, start.flights, cleared, cleared), width, size)
            && OnlyRoles(longer, roles)
  {
    hide Run, Reserve, Cap, PacedRun, Sum, OnlyRoles, Reaches, HasGrants;
    var g, b, done := start.governor, start.budget, start.flights;
    var i, k := |done|, start.budget.calls;
    var seen, granted, cleared :=
      Flight(role, false, Seen(k)), Flight(role, true, Granted), Flight(role, true, Cleared);
    var g1;
    g1, h := BothGranted(g, role, k);
    PairStarts(done, seen, seen);
    PairUpdate(done, seen, seen, granted);
    PairUpdate(done, granted, seen, granted);
    PairUpdate(done, granted, granted, cleared);
    PairUpdate(done, cleared, granted, cleared);
    longer := OneMove(m, moves, Begin(role), start, Machine(g, b, done + [seen]), width, size, roles);
    longer := OneMove(m, longer, Begin(role), Machine(g, b, done + [seen]), Pair(g, b, done, seen, seen), width, size,
                      roles);
    longer := OneMove(m, longer, Ask(i), Pair(g, b, done, seen, seen), Pair(g1, b, done, granted, seen), width, size,
                      roles);
    longer := OneMove(m, longer, Ask(i + 1), Pair(g1, b, done, granted, seen), Pair(h, b, done, granted, granted),
                      width, size, roles);
    longer := OneMove(m, longer, Precheck(i, 0, 0.0), Pair(h, b, done, granted, granted),
                      Pair(h, b, done, cleared, granted), width, size, roles);
    longer := OneMove(m, longer, Precheck(i + 1, 0, 0.0), Pair(h, b, done, cleared, granted),
                      Pair(h, b, done, cleared, cleared), width, size, roles);
  }

  /** Both are checked against the same total, and both are settled. */
  lemma BothSettle(m: Machine, moves: seq<Move>, start: Machine, role: Role, x: nat,
                   width: nat, size: nat, roles: set<Role>)
    returns (longer: seq<Move>)
    requires Reaches(m, moves, start, width, size) && OnlyRoles(moves, roles) && role in roles
    requires Idle(start) && width >= 2 && x <= size
    requires start.budget.calls < Cap(start.governor) && start.governor.reserved + 1 < Cap(start.governor)
    requires HasGrants(start.governor, role, 2) && CanCall(start.budget, x, 0.0)
    ensures PacedRun(m, longer, width, size) && OnlyRoles(longer, roles)
    ensures Run(m, longer).budget == Charged(Charged(start.budget, x, 0.0), x, 0.0)
  {
    hide Run, Cap, PacedRun, Sum, OnlyRoles, HasGrants, Idle;
    var b, done, i := start.budget, start.flights, |start.flights|;
    var cleared, weighed, settled :=
      Flight(role, true, Cleared), Flight(role, true, Weighed(x, 0.0)), Flight(role, true, Settled(0.0));
    var h;
    longer, h := BothCleared(m, moves, start, role, width, size, roles);
    PairUpdate(done, cleared, cleared, weighed);
    PairUpdate(done, weighed, cleared, weighed);
    PairUpdate(done, weighed, weighed, settled);
    PairUpdate(done, settled, weighed, settled);
    var b1 := Charged(b, x, 0.0);
    longer := OneMove(m, longer, Weigh(i, x, 0.0), Pair(h, b, done, cleared, cleared),
                      Pair(h, b, done, weighed, cleared), width, size, roles);
    longer := OneMove(m, longer, Weigh(i + 1, x, 0.0), Pair(h, b, done, weighed, cleared),
                      Pair(h, b, done, weighed, weighed), width, size, roles);
    longer := OneMove(m, longer, Add(i), Pair(h, b, done, weighed, weighed), Pair(h, b1, done, settled, weighed),
                      width, size, roles);
    longer := OneMove(m, longer, Add(i + 1), Pair(h, b1, done, settled, weighed),
                      Pair(h, Charged(b1, x, 0.0), done, settled, settled), width, size, roles);
  }

  // ----- Calls one after another -----

  function Single(g: Governor, b: Budget, done: seq<Flight>, x: Flight): Machine {
    Machine(g, b, done + [x])
  }

  /** One call, from beginning to end, with no tokens and no cost. */
  lemma OneSettles(m: Machine, moves: seq<Move>, start: Machine, role: Role, width: nat, size: nat, roles: set<Role>)
    returns (longer: seq<Move>, end: Machine)
    requires Reaches(m, moves, start, width, size) && OnlyRoles(moves, roles) && role in roles
    requires Idle(start) && width >= 1
    requires start.budget.calls < Cap(start.governor) && start.governor.reserved < Cap(start.governor)
    requires HasGrants(start.governor, role, 1) && CanCall(start.budget, 0, 0.0)
    ensures Reaches(m, longer, end, width, size) && OnlyRoles(longer, roles) && Idle(end)
    ensures end.governor == Reserve(start.governor, role, start.budget.calls).0
            && end.budget == Charged(start.budget, 0, 0.0)
  {
    hide Run, Reserve, Cap, PacedRun, Sum, OnlyRoles, Reaches, HasGrants;
    var g, b, done := start.governor, start.budget, start.flights;
    var i, k := |done|, start.budget.calls;
    var seen, granted, cleared :=
      Flight(role, false, Seen(k)), Flight(role, true, Granted), Flight(role, true, Cleared);
    var weighed, settled := Flight(role, true, Weighed(0, 0.0)), Flight(role, true, Settled(0.0));
    GrantedBelow(g, role, k);
    var h := Reserve(g, role, k).0;
    SingleUpdate(done, seen, granted);
    SingleUpdate(done, granted, cleared);
    SingleUpdate(done, cleared, weighed);
    SingleUpdate(done, weighed, settled);
    longer := OneMove(m, moves, Begin(role), start, Single(g, b, done, seen), width, size, roles);
    longer := OneMove(m, longer, Ask(i), Single(g, b, done, seen), Single(h, b, done, granted), width, size, roles);
    longer := OneMove(m, longer, Precheck(i, 0, 0.0), Single(h, b, done, granted), Single(h, b, done, cleared), width,
                      size, roles);
    longer := OneMove(m, longer, Weigh(i, 0, 0.0), Single(h, b, done, cleared), Single(h, b, done, weighed), width,
                      size, roles);
    end := Single(h, Charged(b, 0, 0.0), done, settled);
    longer := OneMove(m, longer, Add(i), Single(h, b, done, weighed), end, width, size, roles);
    SumAppend(done, ACTIVE, settled);
  }

  lemma SingleUpdate(done: seq<Flight>, x: Flight, z: Flight)
    ensures (done + [x])[|done|] == x && (done + [x])[|done| := z] == done + [z]
  {
  }

  // ----- Room for more calls -----

  /** The roles with a limit, and how many calls each may still make. */
  function Left(g: Governor, role: Role): nat {
    if RoleLimit(role).None? then 0 else Max(0, RoleLimit(role).value - RoleCalls(g, role))
  }

  function LeftOf(g: Governor, roles: set<Role>, role: Role): nat {
    if role in roles then Left(g, role) else 0
  }

  /** The calls that the limits of the roles still allow, together. */
  function LeftTo(g: Governor, roles: set<Role>): nat {
    LeftOf(g, roles, Supervisor) + LeftOf(g, roles, Planner) + LeftOf(g, roles, Researcher)
    + LeftOf(g, roles, Executor) + LeftOf(g, roles, Reviewer)
  }

  /** After `n` more calls in these roles there are two left for the last role. */
  predicate Room(g: Governor, roles: set<Role>, last: Role, n: nat) {
    && last in roles && HasGrants(g, last, 2)
    && (g.complex || RoleLimit(last).None? || LeftTo(g, roles) >= n + 2)
  }

  /** Any role that may make a call leaves room for the rest, if the last role keeps two. */
  lemma NextRole(g: Governor, roles: set<Role>, last: Role, n: nat) returns (role: Role)
    requires Room(g, roles, last, n + 1)
    ensures role in roles && HasGrants(g, role, 1) && (role == last ==> HasGrants(g, role, 3))
  {
    if g.complex || RoleLimit(last).None? || Left(g, last) >= 3 {
      role := last;
    } else {
      var others := roles - {last};
      role := if LeftOf(g, others, Supervisor) > 0 then Supervisor
              else if LeftOf(g, others, Planner) > 0 then Planner
              else if LeftOf(g, others, Researcher) > 0 then Researcher
              else if LeftOf(g, others, Executor) > 0 then Executor else Reviewer;
    }
  }

  lemma RoomAfter(g: Governor, roles: set<Role>, last: Role, n: nat, role: Role, seen: int)
    requires Room(g, roles, last, n + 1) && role in roles && HasGrants(g, role, 1)
        && (role == last ==> HasGrants(g, role, 3))
    requires Grants(Reserve(g, role, seen).1.decision)
    ensures Room(Reserve(g, role, seen).0, roles, last, n)
  {
    var h := Reserve(g, role, seen).0;
    assert forall r :: RoleCalls(h, r) == RoleCalls(g, r) + if r == role then 1 else 0;
    assert forall r :: r != role ==> LeftOf(h, roles, r) == LeftOf(g, roles, r);
    assert LeftOf(h, roles, role) >= LeftOf(g, roles, role) - 1;
  }

  /** `n` calls one after another bring the counter from `k` to `k + n`. */
  lemma {:induction false} Climb(m: Machine, roles: set<Role>, last: Role, n: nat, extra: nat, width: nat, size: nat)
    returns (moves: seq<Move>, end: Machine)
    requires Start(m) && width >= 1 && m.budget.calls >= 0 && m.budget.calls + n <= Cap(m.governor) <= m.budget.maxCalls
    requires Room(m.governor, roles, last, n + extra) && m.budget.cost <= m.budget.costBudget
    ensures Reaches(m, moves, end, width, size) && OnlyRoles(moves, roles) && Idle(end)
    ensures end.budget == m.budget.(calls := m.budget.calls + n)
    ensures end.governor.reserved == n && Cap(end.governor) == Cap(m.governor) && Room(end.governor, roles, last, extra)
  {
    if n == 0 {
      moves, end := [], m;
      NoMoves(m, width, size);
    } else {
      hide Run, PacedRun, OnlyRoles, Reaches, Reserve, Sum, Room;
      var before, role;
      moves, before := Climb(m, roles, last, n - 1, extra + 1, width, size);
      role := NextRole(before.governor, roles, last, extra);
      GrantedBelow(before.governor, role, before.budget.calls);
      moves, end := OneSettles(m, moves, before, role, width, size, roles);
      RoomAfter(before.governor, roles, last, extra, role, before.budget.calls);
    }
  }

  // ----- Exactly when calls overshoot -----

  /** No paced run in these roles settles past the cap. */
  ghost predicate CallsStay(m: Machine, width: nat, size: nat, roles: set<Role>) {
    forall moves :: OnlyRoles(moves, roles) && PacedRun(m, moves, width, size) ==>
      Run(m, moves).budget.calls <= Max(m.budget.calls, Cap(m.governor))
  }

  /** The limits of the roles add up to no more than the calls left under the cap. */
  predicate RolesStopShort(g: Governor, roles: set<Role>, k: int) {
    || roles == {}
    || (!g.complex && (forall role :: role in roles ==> RoleLimit(role).Some?) && LeftTo(g, roles) <= Cap(g) - k)
  }

  lemma CallsOvershoot(m: Machine, width: nat, size: nat, roles: set<Role>) returns (moves: seq<Move>)
    requires Start(m) && m.budget.cost <= m.budget.costBudget && Cap(m.governor) <= m.budget.maxCalls
    requires width >= 2 && 0 < m.budget.calls < Cap(m.governor)
    requires !RolesStopShort(m.governor, roles, m.budget.calls)
    ensures OnlyRoles(moves, roles) && PacedRun(m, moves, width, size)
    ensures Run(m, moves).budget.calls == Cap(m.governor) + 1
  {
    hide Run, PacedRun, OnlyRoles, Reaches;
    var n := Cap(m.governor) - 1 - m.budget.calls;
    var last :| last in roles &&
      (m.governor.complex || RoleLimit(last).None? || forall role :: role in roles ==> RoleLimit(role).Some?);
    var end;
    moves, end := Climb(m, roles, last, n, 0, width, size);
    moves := BothSettle(m, moves, end, last, 0, width, size, roles);
  }

  lemma {:induction false} SameRoles(m: Machine, moves: seq<Move>, roles: set<Role>)
    requires m.flights == [] && OnlyRoles(moves, roles)
    ensures forall f :: f in Run(m, moves).flights ==> f.role in roles
  {
    if moves != [] {
      hide Reserve, CanCall, Over;
      var n := |moves| - 1;
      SameRoles(m, moves[..n], roles);
      var before := Run(m, moves[..n]);
      assert moves[n].Begin? ==> moves[n].role in roles;
      forall f | f in Run(m, moves).flights
        ensures f.role in roles
      {
        var i :| 0 <= i < |Run(m, moves).flights| && Run(m, moves).flights[i] == f;
        assert i < |before.flights| ==> before.flights[i] in before.flights;
      }
    }
  }

  /** The grants of a role, if it is one of these. */
  function GrantsOf(flights: seq<Flight>, roles: set<Role>, role: Role): int {
    if role in roles then Sum(flights, GrantedTo(role)) else 0
  }

  function GrantsTo(flights: seq<Flight>, roles: set<Role>): int {
    GrantsOf(flights, roles, Supervisor) + GrantsOf(flights, roles, Planner) + GrantsOf(flights, roles, Researcher)
    + GrantsOf(flights, roles, Executor) + GrantsOf(flights, roles, Reviewer)
  }

  /** What is settled was granted to one of the roles. */
  lemma {:induction false} SettledByRoles(flights: seq<Flight>, roles: set<Role>)
    requires forall f :: f in flights ==> Marked(f) && f.role in roles && RoleLimit(f.role).Some?
    ensures Sum(flights, SETTLED) <= GrantsTo(flights, roles)
  {
    if flights != [] {
      var n := |flights| - 1;
      assert flights[n] in flights;
      SettledByRoles(flights[..n], roles);
    }
  }

  lemma RoleLimitsBound(m: Machine, moves: seq<Move>, roles: set<Role>)
    requires Start(m) && OnlyRoles(moves, roles) && m.budget.calls <= Cap(m.governor)
    requires RolesStopShort(m.governor, roles, m.budget.calls)
    ensures Run(m, moves).budget.calls <= Cap(m.governor)
  {
    hide Run, OnlyRoles, Cap, WithinLimits;
    RunCounted(m, moves);
    GrantsStayWithinLimits(m, moves);
    SameRoles(m, moves, roles);
    var flights := Run(m, moves).flights;
    SettledByRoles(flights, roles);
    assert roles != {} ==> forall role :: RoleLimit(role).Some? ==>
             Sum(flights, GrantedTo(role)) <= Left(m.governor, role);
  }

  lemma Unhurried(m: Machine, moves: seq<Move>, width: nat, size: nat)
    requires width <= 1 && PacedRun(m, moves, width, size)
    ensures PacedRun(m, moves, 1, size)
  {
    forall k | 0 <= k < |moves|
      ensures Paced(Run(m, moves[..k]), moves[k], 1, size)
    {
      assert Paced(Run(m, moves[..k]), moves[k], width, size);
    }
  }

  /** Every call has read the first counter, and none has passed the precheck. */
  ghost predicate Stalled(m: Machine, b: Budget) {
    && m.budget == b
    && forall f :: f in m.flights ==>
         f.stage == Lost || f.stage == Seen(b.calls) || (f.stage == Granted && b.calls < Cap(m.governor))
  }

  lemma StalledAt(m: Machine, b: Budget, i: nat, f: Flight, g: Governor)
    requires Stalled(m, b) && i < |m.flights| && Cap(g) == Cap(m.governor)
    requires f.stage == Lost || (f.stage == Granted && b.calls < Cap(g))
    ensures Stalled(Machine(g, b, m.flights[i := f]), b)
  {
    var now := m.flights[i := f];
    forall x | x in now
      ensures x == f || x in m.flights
    {
      var j :| 0 <= j < |now| && now[j] == x;
    }
  }

  lemma StepStalled(m: Machine, b: Budget, move: Move)
    requires Stalled(m, b) && WithinLimits(m.governor)
    requires b.calls >= Cap(m.governor) || b.calls >= b.maxCalls || b.cost > b.costBudget
    ensures Stalled(Step(m, move), b) && Cap(Step(m, move).governor) == Cap(m.governor)
  {
    match move
    case Begin(role) =>
    case Ask(i) =>
      if i < |m.flights| && m.flights[i].stage.Seen? {
        assert m.flights[i] in m.flights;
        ReserveWithinLimits(m.governor, m.flights[i].role, b.calls);
        StalledAt(m, b, i, Asked(m, i).flights[i], Asked(m, i).governor);
      }
    case Precheck(i, tokens, cost) =>
      if i < |m.flights| && m.flights[i].stage.Granted? {
        assert m.flights[i] in m.flights;
        StalledAt(m, b, i, m.flights[i].(stage := Lost), m.governor);
      }
    case _ =>
      assert move.i < |m.flights| ==> m.flights[move.i] in m.flights;
  }

  /** From the cap on, from the call limit on, or past the cost budget nothing is settled. */
  lemma {:induction false} RunStalled(m: Machine, moves: seq<Move>)
    requires Start(m)
    requires m.budget.calls >= Cap(m.governor) || m.budget.calls >= m.budget.maxCalls
        || m.budget.cost > m.budget.costBudget
    ensures Stalled(Run(m, moves), m.budget) && Cap(Run(m, moves).governor) == Cap(m.governor)
  {
    if moves != [] {
      hide Stalled, Step, Cap, WithinLimits, Start;
      var n := |moves| - 1;
      RunStalled(m, moves[..n]);
      RunCounted(m, moves[..n]);
      StepStalled(Run(m, moves[..n]), m.budget, moves[n]);
    }
  }

  /** Parallel calls settle past the cap exactly if there are two at a time, the segment
      was resumed with some but not all calls settled and a cost within the budget, and the
      roles that are called have, together, more calls than are left. */
  lemma CallsStayIff(m: Machine, width: nat, size: nat, roles: set<Role>)
    requires Start(m) && m.budget.calls >= 0 && Cap(m.governor) <= m.budget.maxCalls
    ensures CallsStay(m, width, size, roles)
            <==> width <= 1 || m.budget.calls == 0 || m.budget.calls >= Cap(m.governor)
                 || m.budget.cost > m.budget.costBudget || RolesStopShort(m.governor, roles, m.budget.calls)
  {
    hide Run, PacedRun, OnlyRoles, RolesStopShort, Start;
    var b, k, cap := m.budget, m.budget.calls, Cap(m.governor);
    if width >= 2 && 0 < k < cap && b.cost <= b.costBudget && !RolesStopShort(m.governor, roles, k) {
      var moves := CallsOvershoot(m, width, size, roles);
    } else {
      forall moves | OnlyRoles(moves, roles) && PacedRun(m, moves, width, size)
        ensures Run(m, moves).budget.calls <= Max(k, cap)
      {
        if width <= 1 {
          Unhurried(m, moves, width, size);
          SegmentOvershoot(m, moves, 1, size);
        } else if k == 0 {
          SegmentOvershoot(m, moves, width, size);
        } else if k >= cap || b.cost > b.costBudget {
          RunStalled(m, moves);
        } else {
          RoleLimitsBound(m, moves, roles);
        }
      }
    }
  }

  // ----- Exactly when tokens overshoot -----

  /** No paced run, whatever its calls weigh, settles past the token budget. */
  ghost predicate TokensStay(m: Machine, width: nat) {
    forall moves, size: nat :: PacedRun(m, moves, width, size) ==> Run(m, moves).budget.tokens <= m.budget.tokenBudget
  }

  /** Two calls that each take all that is left. */
  lemma TokensOvershoot(m: Machine, width: nat, role: Role) returns (moves: seq<Move>)
    requires Start(m) && m.budget.calls >= 0 && m.budget.cost <= m.budget.costBudget && width >= 2
    requires m.budget.tokens < m.budget.tokenBudget && Cap(m.governor) >= 2
    requires m.budget.calls < Cap(m.governor) && m.budget.calls < m.budget.maxCalls
    ensures var left := m.budget.tokenBudget - m.budget.tokens;
            && OnlyRoles(moves, {role}) && PacedRun(m, moves, width, left)
            && Run(m, moves).budget.tokens == m.budget.tokenBudget + left
  {
    var left := m.budget.tokenBudget - m.budget.tokens;
    NoMoves(m, width, left);
    moves := BothSettle(m, [], m, role, left, width, left, {role});
  }

  /** Nothing is left, and nothing is taken. */
  ghost predicate Full(m: Machine) {
    m.budget.tokens == m.budget.tokenBudget && forall f :: f in m.flights && f.stage.Weighed? ==> f.stage.tokens == 0
  }

  lemma FullAt(m: Machine, i: nat, f: Flight, g: Governor, b: Budget)
    requires Full(m) && i < |m.flights| && b.tokens == b.tokenBudget && (f.stage.Weighed? ==> f.stage.tokens == 0)
    ensures Full(Machine(g, b, m.flights[i := f]))
  {
    var now := m.flights[i := f];
    forall x | x in now
      ensures x == f || x in m.flights
    {
      var j :| 0 <= j < |now| && now[j] == x;
    }
  }

  lemma StepFull(m: Machine, move: Move)
    requires Full(m)
    ensures Full(Step(m, move))
  {
    match move
    case Begin(role) =>
    case Ask(i) =>
      if i < |m.flights| && m.flights[i].stage.Seen? {
        FullAt(m, i, Asked(m, i).flights[i], Asked(m, i).governor, m.budget);
      }
    case Add(i) =>
      if i < |m.flights| && m.flights[i].stage.Weighed? {
        assert m.flights[i] in m.flights;
        FullAt(m, i, Added(m, i).flights[i], m.governor, Added(m, i).budget);
      }
    case _ => if move.i < |m.flights| { FullAt(m, move.i, Step(m, move).flights[move.i], m.governor, m.budget); }
  }

  lemma {:induction false} RunFull(m: Machine, moves: seq<Move>)
    requires Full(m)
    ensures Full(Run(m, moves)) && Run(m, moves).budget.tokenBudget == m.budget.tokenBudget
  {
    if moves != [] {
      RunFull(m, moves[..|moves| - 1]);
      StepFull(Run(m, moves[..|moves| - 1]), moves[|moves| - 1]);
    }
  }

  /** With one grant in all, no two settlements are checked against the same total. */
  ghost predicate Ordered(m: Machine, size: nat) {
    && m.budget.tokens + Sum(m.flights, WEIGHED) <= m.budget.tokenBudget
    && forall f :: f in m.flights && f.stage.Weighed? ==> f.stage.tokens <= size
  }

  lemma NoOtherWeighs(m: Machine, size: nat, i: nat)
    requires Ordered(m, size) && Sum(m.flights, GRANTED) <= 1 && (forall f :: f in m.flights ==> Marked(f))
    requires i < |m.flights| && m.flights[i].stage.Cleared?
    ensures Sum(m.flights, WEIGHED) <= 0
  {
    var gone := Flight(m.flights[i].role, false, Lost);
    var others := m.flights[i := gone];
    assert m.flights[i] in m.flights;
    SumUpdate(m.flights, GRANTED, i, gone);
    SumUpdate(m.flights, WEIGHED, i, gone);
    forall f | f in others
      ensures WEIGHED(f) <= size * GRANTED(f)
    {
      var j :| 0 <= j < |others| && others[j] == f;
      assert f == gone || f in m.flights;
      if f.stage.Weighed? { assert size * GRANTED(f) == size; }
    }
    SumAtMost(others, WEIGHED, GRANTED, size);
    Product(size, Sum(others, GRANTED), 0);
  }

  lemma OrderedAt(m: Machine, size: nat, i: nat, f: Flight, g: Governor, b: Budget)
    requires Ordered(m, size) && i < |m.flights| && b.tokenBudget == m.budget.tokenBudget
    requires b.tokens + Sum(m.flights, WEIGHED) + WEIGHED(f) - WEIGHED(m.flights[i]) <= b.tokenBudget
    requires f.stage.Weighed? ==> f.stage.tokens <= size
    ensures Ordered(Machine(g, b, m.flights[i := f]), size)
  {
    SumUpdate(m.flights, WEIGHED, i, f);
    var now := m.flights[i := f];
    forall x | x in now
      ensures x == f || x in m.flights
    {
      var j :| 0 <= j < |now| && now[j] == x;
    }
  }

  lemma StepOrdered(m: Machine, move: Move, size: nat)
    requires Ordered(m, size) && Sum(m.flights, GRANTED) <= 1 && (forall f :: f in m.flights ==> Marked(f))
    requires move.Weigh? ==> move.tokens <= size
    ensures Ordered(Step(m, move), size)
  {
    hide Sum, Reserve, CanCall;
    match move
    case Begin(role) => SumAppend(m.flights, WEIGHED, Flight(role, false, Seen(m.budget.calls)));
    case Ask(i) =>
      if i < |m.flights| && m.flights[i].stage.Seen? {
        OrderedAt(m, size, i, Asked(m, i).flights[i], Asked(m, i).governor, m.budget);
      }
    case Add(i) =>
      if i < |m.flights| && m.flights[i].stage.Weighed? {
        OrderedAt(m, size, i, Added(m, i).flights[i], m.governor, Added(m, i).budget);
      }
    case Weigh(i, tokens, cost) =>
      if i < |m.flights| && m.flights[i].stage.Cleared? {
        NoOtherWeighs(m, size, i);
        OrderedAt(m, size, i, Step(m, move).flights[i], m.governor, m.budget);
      }
    case _ =>
      if move.i < |m.flights| && !m.flights[move.i].stage.Weighed? {
        OrderedAt(m, size, move.i, Step(m, move).flights[move.i], m.governor, m.budget);
      }
  }

  lemma {:induction false} RunOrdered(m: Machine, moves: seq<Move>, width: nat, size: nat)
    requires Start(m) && Cap(m.governor) < 2 && PacedRun(m, moves, width, size)
    ensures Ordered(Run(m, moves), size) && Run(m, moves).budget.tokenBudget == m.budget.tokenBudget
  {
    if moves != [] {
      hide Ordered, Step, Sum, WithinLimits;
      var n := |moves| - 1;
      FrontPaced(m, moves, width, size);
      RunOrdered(m, moves[..n], width, size);
      RunCounted(m, moves[..n]);
      GrantsStayWithinLimits(m, moves[..n]);
      StepOrdered(Run(m, moves[..n]), moves[n], size);
      TokenBudgetStays(Run(m, moves[..n]), moves[n]);
    }
  }

  lemma TokenBudgetStays(m: Machine, move: Move)
    ensures Step(m, move).budget.tokenBudget == m.budget.tokenBudget
  {
  }

  lemma OrderedFits(m: Machine, size: nat)
    requires Ordered(m, size)
    ensures m.budget.tokens <= m.budget.tokenBudget
  {
    SumNatural(m.flights, 0);
  }

  /** Parallel settlements spend past the token budget, for calls of some size, exactly if
      there are two at a time, tokens are left, the cost is within the budget, and two calls
      can be granted and started. */
  lemma TokensStayIff(m: Machine, width: nat)
    requires Start(m) && m.budget.calls >= 0
    ensures TokensStay(m, width)
            <==> width <= 1 || m.budget.tokens == m.budget.tokenBudget || Cap(m.governor) < 2
                 || m.budget.calls >= Cap(m.governor) || m.budget.calls >= m.budget.maxCalls
                 || m.budget.cost > m.budget.costBudget
  {
    hide Run, PacedRun;
    var b, cap := m.budget, Cap(m.governor);
    if width >= 2 && b.tokens < b.tokenBudget && cap >= 2 && b.calls < cap && b.calls < b.maxCalls
        && b.cost <= b.costBudget {
      var moves := TokensOvershoot(m, width, Researcher);
    } else {
      forall moves, size: nat | PacedRun(m, moves, width, size)
        ensures Run(m, moves).budget.tokens <= b.tokenBudget
      {
        if width <= 1 {
          Unhurried(m, moves, width, size);
          SegmentOvershoot(m, moves, 1, size);
        } else if b.tokens == b.tokenBudget {
          RunFull(m, moves);
        } else if cap < 2 {
          RunOrdered(m, moves, width, size);
          OrderedFits(Run(m, moves), size);
        } else {
          RunStalled(m, moves);
        }
      }
    }
  }

  // ----- Witnesses -----

  /** A task limited to two model calls, resumed after the first: two researchers side by
      side both read the old counter, and three calls are settled. */
  lemma ParallelResumeOvershoots(tokenBudget: int, costBudget: real) returns (moves: seq<Move>)
    requires tokenBudget > 0 && costBudget > 0.0
    ensures var m := Machine(Governor(false, Some(2), map[], 0), Budget(tokenBudget, costBudget, 2, 0, 0.0, 1), []);
            Start(m) && PacedRun(m, moves, 2, 0) && OnlyRoles(moves, {Researcher}) && Run(m, moves).budget.calls == 3
  {
    var m := Machine(Governor(false, Some(2), map[], 0), Budget(tokenBudget, costBudget, 2, 0, 0.0, 1), []);
    moves := CallsOvershoot(m, 2, 0, {Researcher});
  }

  /** A limit of six, resumed after one call: no role alone has the grants to pass it, but
      researchers and executors together do. */
  lemma MixedRolesOvershoot(tokenBudget: int, costBudget: real, width: nat, size: nat)
    requires tokenBudget > 0 && costBudget > 0.0 && width >= 2
    ensures var m := Machine(Governor(false, Some(6), map[], 0), Budget(tokenBudget, costBudget, 6, 0, 0.0, 1), []);
            && (forall role :: RoleLimit(role).Some? ==> CallsStay(m, width, size, {role}))
            && !CallsStay(m, width, size, {Researcher, Executor})
  {
    hide CallsStay;
    var m := Machine(Governor(false, Some(6), map[], 0), Budget(tokenBudget, costBudget, 6, 0, 0.0, 1), []);
    forall role | RoleLimit(role).Some?
      ensures CallsStay(m, width, size, {role})
    {
      CallsStayIff(m, width, size, {role});
    }
    CallsStayIff(m, width, size, {Researcher, Executor});
  }

  /** The check and the addition of a settlement are not one step: two researchers side by
      side can spend twice any budget. */
  lemma ParallelSettlementOverspends(tokenBudget: nat, costBudget: real) returns (moves: seq<Move>)
    requires tokenBudget > 0 && costBudget > 0.0
    ensures var m := Machine(Governor(false, Some(2), map[], 0), Budget(tokenBudget, costBudget, 2, 0, 0.0, 0), []);
            && Start(m) && PacedRun(m, moves, 2, tokenBudget) && OnlyRoles(moves, {Researcher})
            && Run(m, moves).budget.tokens == 2 * tokenBudget
  {
    var m := Machine(Governor(false, Some(2), map[], 0), Budget(tokenBudget, costBudget, 2, 0, 0.0, 0), []);
    moves := TokensOvershoot(m, 2, Researcher);
  }
}
