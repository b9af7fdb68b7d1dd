/** Runs that pause and resume: what is carried over, and what is lost to rounding. */
module CallSegments {
  import opened Plans
  import opened CallBudget
  import opened CallInterleavings

  /** A new process: a new governor with the same configuration, the budget rebuilt from
      the usage written at the pause, no calls under way. */
  function Restart(m: Machine): Machine {
    Machine(m.governor.(roleCalls := map[], reserved := 0), Resumed(m.budget), [])
  }

  function AllSegments(m: Machine, segments: seq<seq<Move>>): Machine {
    if segments == [] then m
    else Run(Restart(AllSegments(m, segments[..|segments| - 1])), segments[|segments| - 1])
  }

  /** Every segment makes one call at a time. */
  ghost predicate Sequential(m: Machine, segments: seq<seq<Move>>, size: nat) {
    forall k :: 0 <= k < |segments| ==> PacedRun(Restart(AllSegments(m, segments[..k])), segments[k], 1, size)
  }

  lemma FrontSequential(m: Machine, segments: seq<seq<Move>>, size: nat)
    requires segments != [] && Sequential(m, segments, size)
    ensures Sequential(m, segments[..|segments| - 1], size)
    ensures PacedRun(Restart(AllSegments(m, segments[..|segments| - 1])), segments[|segments| - 1], 1, size)
  {
    var front := segments[..|segments| - 1];
    forall k | 0 <= k < |front|
      ensures PacedRun(Restart(AllSegments(m, front[..k])), front[k], 1, size)
    {
      assert front[..k] == segments[..k];
      assert PacedRun(Restart(AllSegments(m, segments[..k])), segments[k], 1, size);
    }
  }

  /** The configuration that no step changes. */
  ghost predicate SameLimits(a: Machine, b: Machine) {
    && a.governor.complex == b.governor.complex && a.governor.hardLimit == b.governor.hardLimit
    && a.budget.tokenBudget == b.budget.tokenBudget && a.budget.costBudget == b.budget.costBudget
  }

  lemma {:induction false} RunKeepsLimits(m: Machine, moves: seq<Move>)
    ensures SameLimits(Run(m, moves), m)
  {
    if moves != [] {
      RunKeepsLimits(m, moves[..|moves| - 1]);
      StepKeepsLimits(Run(m, moves[..|moves| - 1]), moves[|moves| - 1]);
    }
  }

  lemma StepKeepsLimits(m: Machine, move: Move)
    ensures SameLimits(Step(m, move), m)
  {
  }

  /** Over any number of pauses, sequential segments never settle more calls than the cap
      (or than were settled before), and never more tokens than the budget. */
  lemma {:induction false} PausesAddNothing(m: Machine, segments: seq<seq<Move>>, size: nat)
    requires m.flights == [] && m.budget.tokens <= m.budget.tokenBudget && Sequential(m, segments, size)
    ensures var end := AllSegments(m, segments);
            && SameLimits(end, m)
            && end.budget.calls <= Max(m.budget.calls, Cap(m.governor))
            && end.budget.tokens <= m.budget.tokenBudget
  {
    if segments != [] {
      hide Run, Cap, PacedRun, Sequential, Rounded;
      var n := |segments| - 1;
      FrontSequential(m, segments, size);
      PausesAddNothing(m, segments[..n], size);
      var start := Restart(AllSegments(m, segments[..n]));
      SegmentOvershoot(start, segments[n], 1, size);
      RunKeepsLimits(start, segments[n]);
      CapOfLimits(start.governor, m.governor);
    }
  }

  lemma CapOfLimits(a: Governor, b: Governor)
    requires a.complex == b.complex && a.hardLimit == b.hardLimit
    ensures Cap(a) == Cap(b)
  {
  }

  // ----- Cost -----

  function Paid(flights: seq<Flight>): real {
    if flights == [] then 0.0
    else
      var last := flights[|flights| - 1];
      Paid(flights[..|flights| - 1]) + if last.stage.Settled? then last.stage.cost else 0.0
  }

  lemma {:induction false} PaidUpdate(flights: seq<Flight>, i: nat, f: Flight)
    requires i < |flights| && !flights[i].stage.Settled?
    ensures Paid(flights[i := f]) == Paid(flights) + if f.stage.Settled? then f.stage.cost else 0.0
  {
    var n := |flights| - 1;
    if i < n {
      PaidUpdate(flights[..n], i, f);
      assert flights[i := f][..n] == flights[..n][i := f];
    } else {
      assert flights[i := f][..n] == flights[..n];
    }
  }

  lemma {:induction false} TwoActive(flights: seq<Flight>, i: nat, j: nat)
    requires i < j < |flights| && ACTIVE(flights[i]) == 1 == ACTIVE(flights[j])
    ensures Sum(flights, ACTIVE) >= 2
  {
    var f := flights[i].(stage := Lost);
    SumUpdate(flights, ACTIVE, i, f);
    var g := flights[j].(stage := Lost);
    SumUpdate(flights[i := f], ACTIVE, j, g);
    ActiveNatural(flights[i := f][j := g]);
  }

  lemma {:induction false} ActiveNatural(flights: seq<Flight>)
    ensures Sum(flights, ACTIVE) >= 0
  {
    if flights != [] {
      ActiveNatural(flights[..|flights| - 1]);
    }
  }

  /** The cost of a sequential segment: what it started with and what was settled; no more
      than the budget once anything was settled. */
  ghost predicate Ledger(m: Machine, start: real) {
    && Sum(m.flights, ACTIVE) <= 1
    && m.budget.cost == start + Paid(m.flights)
    && (m.budget.cost <= m.budget.costBudget || (m.budget.cost == start && Paid(m.flights) == 0.0))
    && forall i :: 0 <= i < |m.flights| && m.flights[i].stage.Weighed? ==>
         m.budget.cost + m.flights[i].stage.cost <= m.budget.costBudget
  }

  lemma PaidAppend(flights: seq<Flight>, f: Flight)
    requires !f.stage.Settled?
    ensures Paid(flights + [f]) == Paid(flights)
  {
    assert (flights + [f])[..|flights|] == flights;
  }

  lemma BeginLedger(m: Machine, start: real, role: Role)
    requires Ledger(m, start) && Sum(m.flights, ACTIVE) < 1
    ensures Ledger(Step(m, Begin(role)), start)
  {
    hide Sum, Paid;
    var f := Flight(role, false, Seen(m.budget.calls));
    SumAppend(m.flights, ACTIVE, f);
    PaidAppend(m.flights, f);
  }

  lemma ReplaceLedger(m: Machine, start: real, i: nat, f: Flight, g: Governor)
    requires Ledger(m, start) && i < |m.flights| && ACTIVE(m.flights[i]) == 1 && !f.stage.Settled?
    requires f.stage.Weighed? ==> m.budget.cost + f.stage.cost <= m.budget.costBudget
    ensures Ledger(Machine(g, m.budget, m.flights[i := f]), start)
  {
    hide Sum, Paid;
    SumUpdate(m.flights, ACTIVE, i, f);
    PaidUpdate(m.flights, i, f);
  }

  lemma AddLedger(m: Machine, start: real, i: nat)
    requires Ledger(m, start) && i < |m.flights| && m.flights[i].stage.Weighed?
    ensures Ledger(Added(m, i), start)
  {
    hide Sum, Paid;
    var f := Added(m, i).flights[i];
    SumUpdate(m.flights, ACTIVE, i, f);
    PaidUpdate(m.flights, i, f);
    forall j | 0 <= j < |m.flights| && j != i && m.flights[j].stage.Weighed?
      ensures false
    {
      if i < j { TwoActive(m.flights, i, j); } else { TwoActive(m.flights, j, i); }
    }
  }

  lemma StepLedger(m: Machine, move: Move, start: real, size: nat)
    requires Ledger(m, start) && Paced(m, move, 1, size)
    ensures Ledger(Step(m, move), start)
  {
    hide Ledger, Sum;
    match move
    case Begin(role) => BeginLedger(m, start, role);
    case Ask(i) =>
      if i < |m.flights| && m.flights[i].stage.Seen? {
        ReplaceLedger(m, start, i, Asked(m, i).flights[i], Asked(m, i).governor);
      }
    case Precheck(i, tokens, cost) =>
      if i < |m.flights| && m.flights[i].stage.Granted? {
        ReplaceLedger(m, start, i, Step(m, move).flights[i], m.governor);
      }
    case Fail(i) =>
      if i < |m.flights| && m.flights[i].stage.Cleared? {
        ReplaceLedger(m, start, i, Step(m, move).flights[i], m.governor);
      }
    case Weigh(i, tokens, cost) =>
      if i < |m.flights| && m.flights[i].stage.Cleared? {
        ReplaceLedger(m, start, i, Step(m, move).flights[i], m.governor);
      }
    case Add(i) => if i < |m.flights| && m.flights[i].stage.Weighed? { AddLedger(m, start, i); }
  }

  lemma {:induction false} RunLedger(m: Machine, moves: seq<Move>, size: nat)
    requires m.flights == [] && PacedRun(m, moves, 1, size)
    ensures Ledger(Run(m, moves), m.budget.cost)
  {
    if moves != [] {
      hide Ledger, Step;
      var n := |moves| - 1;
      FrontPaced(m, moves, 1, size);
      RunLedger(m, moves[..n], size);
      StepLedger(Run(m, moves[..n]), moves[n], m.budget.cost, size);
    }
  }

  /** The true cost over all segments, next to the recorded one. */
  function TotalPaid(m: Machine, segments: seq<seq<Move>>): real {
    if segments == [] then m.budget.cost
    else TotalPaid(m, segments[..|segments| - 1]) + Paid(AllSegments(m, segments).flights)
  }

  const HALF_DIGIT := 0.0000005

  lemma RoundedIsClose(x: real)
    ensures x - HALF_DIGIT <= Rounded(x) <= x + HALF_DIGIT
  {
    var scaled := x * 1000000.0 + 0.5;
    var whole := scaled.Floor as real;
    assert scaled - 1.0 <= whole <= scaled;
    assert Rounded(x) * 1000000.0 == whole;
  }

  /** Rounding at every pause moves the recorded cost away from the true one by at most half
      a millionth a pause, so the true cost stays within the budget but for that much. */
  lemma {:induction false} RoundingDrift(m: Machine, segments: seq<seq<Move>>, size: nat)
    requires m.flights == [] && m.budget.cost <= m.budget.costBudget && Sequential(m, segments, size)
    ensures var end, paid, drift := AllSegments(m, segments), TotalPaid(m, segments), |segments| as real * HALF_DIGIT;
            && end.budget.costBudget == m.budget.costBudget
            && end.budget.cost - drift <= paid <= end.budget.cost + drift
            && paid <= m.budget.costBudget + drift
  {
    if segments != [] {
      hide Run, PacedRun, Sequential, Rounded, Paid;
      var n := |segments| - 1;
      FrontSequential(m, segments, size);
      RoundingDrift(m, segments[..n], size);
      var before := AllSegments(m, segments[..n]);
      var start := Restart(before);
      RoundedIsClose(before.budget.cost);
      RunLedger(start, segments[n], size);
      RunKeepsLimits(start, segments[n]);
      DriftStep(n);
      LastSegment(m, segments, start);
    }
  }

  lemma DriftStep(n: nat)
    ensures (n + 1) as real * HALF_DIGIT == n as real * HALF_DIGIT + HALF_DIGIT
  {
  }

  lemma LastSegment(m: Machine, segments: seq<seq<Move>>, start: Machine)
    requires segments != [] && start == Restart(AllSegments(m, segments[..|segments| - 1]))
    requires Ledger(Run(start, segments[|segments| - 1]), start.budget.cost)
    ensures var end, before := AllSegments(m, segments), TotalPaid(m, segments[..|segments| - 1]);
            && end.budget.cost == start.budget.cost + (TotalPaid(m, segments) - before)
            && (end.budget.cost <= end.budget.costBudget || TotalPaid(m, segments) == before)
  {
    hide Run, Sum;
  }

  /** The rounding at a pause forgives something - some call is accepted after it although
      its cost exceeds what is left - exactly if it rounds down, the rounded usage being
      within the budgets. */
  lemma RoundingForgivesIff(b: Budget)
    ensures (exists tokens: nat, cost: real ::
               cost >= 0.0 && !Over(Resumed(b), tokens, cost) && b.cost + cost > b.costBudget)
            <==> Rounded(b.cost) < b.cost && Rounded(b.cost) <= b.costBudget && b.tokens <= b.tokenBudget
  {
    if Rounded(b.cost) < b.cost && Rounded(b.cost) <= b.costBudget && b.tokens <= b.tokenBudget {
      assert !Over(Resumed(b), 0, b.costBudget - Rounded(b.cost));
    }
  }

  /** It refuses something - some call is refused after it although its cost is left -
      exactly if it rounds up, the usage being within the budgets. */
  lemma RoundingRefusesIff(b: Budget)
    ensures (exists tokens: nat, cost: real :: cost >= 0.0 && Over(Resumed(b), tokens, cost) && !Over(b, tokens, cost))
            <==> Rounded(b.cost) > b.cost && b.cost <= b.costBudget && b.tokens <= b.tokenBudget
  {
    if Rounded(b.cost) > b.cost && b.cost <= b.costBudget && b.tokens <= b.tokenBudget {
      assert Over(Resumed(b), 0, b.costBudget - b.cost) && !Over(b, 0, b.costBudget - b.cost);
    }
  }

  /** A cost below half a millionth is forgotten at every pause. */
  lemma SmallCostsAreForgotten(b: Budget)
    requires 0.0 <= b.cost < HALF_DIGIT
    ensures Resumed(b).cost == 0.0
  {
    assert 0.0 <= b.cost * 1000000.0 < 0.5;
    assert (b.cost * 1000000.0 + 0.5).Floor == 0;
  }
}
