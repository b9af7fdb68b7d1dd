/** Model-call accounting: the governor's reservations, the budget's settlement, and the
    gateway call that uses both. */
module CallBudget {
  import opened Plans

  // ----- The governor -----

  const RECOVERY_THRESHOLD := 16
  const SOFT_THRESHOLD := 12
  const HARD_THRESHOLD := 20
  const COMPLEX_THRESHOLD := 32

  datatype CostDecision = Allow | Warning | Recovery | Stop

  datatype Assessment = Assessment(decision: CostDecision, callsUsed: int, roleCalls: nat, remaining: nat)

  datatype Governor = Governor(complex: bool, hardLimit: Option<int>, roleCalls: map<Role, nat>, reserved: nat)

  function RoleLimit(role: Role): Option<nat> {
    match role
    case Supervisor => Some(2)
    case Planner => Some(2)
    case Researcher => Some(4)
    case Executor => Some(3)
    case Reviewer => Some(2)
    case OtherRole(_) => None
  }

  /** A limit of zero counts as none. */
  function Hard(g: Governor): int {
    if g.hardLimit.Some? && g.hardLimit.value != 0 then g.hardLimit.value
    else if g.complex then COMPLEX_THRESHOLD else HARD_THRESHOLD
  }

  function RoleCalls(g: Governor, role: Role): nat {
    if role in g.roleCalls then g.roleCalls[role] else 0
  }

  function Assess(g: Governor, role: Role, callsUsed: int): Assessment {
    var n, hard, left := RoleCalls(g, role), Hard(g), Max(0, Hard(g) - callsUsed);
    if callsUsed >= hard then Assessment(Stop, callsUsed, n, 0)
    else if !g.complex && RoleLimit(role).Some? && n >= RoleLimit(role).value then Assessment(Recovery, callsUsed, n, 0)
    else if !g.complex && callsUsed >= RECOVERY_THRESHOLD then Assessment(Recovery, callsUsed, n, left)
    else if !g.complex && callsUsed >= SOFT_THRESHOLD then Assessment(Warning, callsUsed, n, left)
    else Assessment(Allow, callsUsed, n, left)
  }

  predicate Grants(d: CostDecision) { d == Allow || d == Warning }

  function Reserve(g: Governor, role: Role, callsUsed: int): (Governor, Assessment) {
    var a := Assess(g, role, Max(callsUsed, g.reserved));
    var granted := g.(roleCalls := g.roleCalls[role := RoleCalls(g, role) + 1], reserved := g.reserved + 1);
    (if Grants(a.decision) then granted else g, a)
  }

  // ----- The budget -----

  datatype Budget = Budget(tokenBudget: int, costBudget: real, maxCalls: int, tokens: int, cost: real, calls: int)

  predicate CanCall(b: Budget, tokens: int, cost: real) {
    b.calls < b.maxCalls && b.tokens + tokens <= b.tokenBudget && b.cost + cost <= b.costBudget
  }

  predicate Over(b: Budget, tokens: int, cost: real) {
    b.tokens + tokens > b.tokenBudget || b.cost + cost > b.costBudget
  }

  function Charged(b: Budget, tokens: int, cost: real): Budget {
    b.(tokens := b.tokens + tokens, cost := b.cost + cost, calls := b.calls + 1)
  }

  /** Usage is written back with the cost rounded to six digits. */
  function Rounded(x: real): real {
    (x * 1000000.0 + 0.5).Floor as real / 1000000.0
  }

  /** The budget of the next segment, rebuilt from the usage written at the pause. */
  function Resumed(b: Budget): Budget {
    b.(cost := Rounded(b.cost))
  }

  // ----- One gateway call -----

  datatype Reply = Reply(tokens: nat, cost: real) | Failure(retryable: bool)

  datatype Answer = Refused | Insufficient | ProviderFailed | Completed | Overspent

  /** The attempt that ends the retry loop: a reply, an error not worth retrying, or the last one allowed. */
  function LastAttempt(replies: nat -> Reply, maxRetries: int, attempt: nat): (n: nat)
    ensures n >= attempt && n <= attempt + Max(0, maxRetries - attempt)
    ensures forall i :: attempt <= i < n ==> replies(i) == Failure(true)
    ensures replies(n).Reply? || !replies(n).retryable || n >= maxRetries
    decreases maxRetries - attempt
  {
    if replies(attempt).Reply? || !replies(attempt).retryable || attempt >= maxRetries then attempt
    else LastAttempt(replies, maxRetries, attempt + 1)
  }

  // ----- What an assessment means -----

  /** The most calls that are granted, counted in all. */
  function GrantLimit(g: Governor): int {
    if g.complex then Hard(g) else Min(16, Hard(g))
  }

  /** The most calls of one role that are granted in a run that is not complex. */
  function MostCalls(role: Role): nat
    requires !role.OtherRole?
  {
    if role == Researcher then 4 else if role == Executor then 3 else 2
  }

  /** A call is granted exactly while fewer calls than the limit were used and its role has
      one left; it comes with a warning from the twelfth on, and the run is stopped exactly
      at the hard limit, which is the task's own if it has one. */
  lemma AssessmentIsExact(g: Governor, role: Role, used: int)
    ensures var a := Assess(g, role, used);
            && (Grants(a.decision) <==>
                  used < GrantLimit(g) && (g.complex || role.OtherRole? || RoleCalls(g, role) < MostCalls(role)))
            && (a.decision == Warning <==> Grants(a.decision) && !g.complex && used >= 12)
            && (a.decision == Stop <==> used >= Hard(g))
            && (Grants(a.decision) ==> a.remaining == Hard(g) - used)
            && a.callsUsed == used && a.roleCalls == RoleCalls(g, role)
    ensures g.hardLimit.None? ==> Hard(g) == if g.complex then 32 else 20
    ensures g.hardLimit.Some? && g.hardLimit.value > 0 ==> Hard(g) == g.hardLimit.value
  {
  }

  /** A reservation assesses the larger counter, and counts the call for its role and in
      all exactly if it is granted. */
  lemma ReservationIsExact(g: Governor, role: Role, used: int)
    ensures var (h, a) := Reserve(g, role, used);
            && a == Assess(g, role, if used >= g.reserved then used else g.reserved)
            && h.complex == g.complex && h.hardLimit == g.hardLimit
            && (!Grants(a.decision) ==> h == g)
            && (Grants(a.decision) ==>
                  && h.reserved == g.reserved + 1
                  && forall r :: RoleCalls(h, r) == RoleCalls(g, r) + if r == role then 1 else 0)
  {
  }

  class ModelGateway {
    var governor: Governor
    var budget: Budget

    constructor (governor: Governor, budget: Budget)
      ensures this.governor == governor && this.budget == budget
    {
      this.governor, this.budget := governor, budget;
    }

    /** `assess_and_reserve`. */
    method AssessAndReserve(role: Role, callsUsed: int) returns (a: Assessment)
      modifies `governor
      ensures (governor, a) == Reserve(old(governor), role, callsUsed)
    {
      var effective := if callsUsed >= governor.reserved then callsUsed else governor.reserved;
      a := Assess(governor, role, effective);
      if a.decision == Allow || a.decision == Warning {
        governor := governor.(roleCalls := governor.roleCalls[role := RoleCalls(governor, role) + 1]);
        governor := governor.(reserved := governor.reserved + 1);
      }
    }

    /** `BudgetController.record`. */
    method Record(tokens: int, cost: real) returns (ok: bool)
      modifies `budget
      ensures ok <==> old(budget).tokens + tokens <= old(budget).tokenBudget
                      && old(budget).cost + cost <= old(budget).costBudget
      ensures !ok ==> budget == old(budget)
      ensures ok ==> budget == old(budget).(tokens := old(budget).tokens + tokens, cost := old(budget).cost + cost,
                                            calls := old(budget).calls + 1)
    {
      var tokensOver := budget.tokens + tokens > budget.tokenBudget;
      var costOver := budget.cost + cost > budget.costBudget;
      if tokensOver || costOver { return false; }
      budget := budget.(tokens := budget.tokens + tokens);
      budget := budget.(cost := budget.cost + cost);
      budget := budget.(calls := budget.calls + 1);
      ok := true;
    }

    /** `generate`: one reservation at most, `maxRetries + 1` provider calls at most, and one
        settlement, which happens exactly when a reply arrives within the budget. */
    method Generate(role: Role, estTokens: int, estCost: real, maxRetries: int, replies: nat -> Reply)
      returns (answer: Answer, attempts: nat)
      modifies this
      ensures var (g, a) := Reserve(old(governor), role, old(budget).calls);
              && governor == g
              && (answer == Refused <==> !Grants(a.decision))
              && (answer == Insufficient <==>
                    && Grants(a.decision)
                    && (old(budget).calls >= old(budget).maxCalls
                        || old(budget).tokens + estTokens > old(budget).tokenBudget
                        || old(budget).cost + estCost > old(budget).costBudget))
      ensures answer == Refused || answer == Insufficient ==> attempts == 0 && budget == old(budget)
      ensures answer != Refused && answer != Insufficient ==>
                && 1 <= attempts <= Max(0, maxRetries) + 1
                && (forall i: nat :: i < attempts - 1 ==> replies(i) == Failure(true))
                && var last := replies(attempts - 1);
                   && (last.Failure? ==>
                         && answer == ProviderFailed && budget == old(budget)
                         && (last.retryable ==> attempts > maxRetries))
                   && (last.Reply? ==>
                         (answer == Completed <==> old(budget).tokens + last.tokens <= old(budget).tokenBudget
                                                   && old(budget).cost + last.cost <= old(budget).costBudget)
                         && (answer == Overspent <==> answer != Completed))
                   && budget == if answer == Completed then Charged(old(budget), last.tokens, last.cost)
                                else old(budget)
    {
      attempts := 0;
      var a := AssessAndReserve(role, budget.calls);
      if a.decision == Recovery || a.decision == Stop { return Refused, 0; }
      if !CanCall(budget, estTokens, estCost) { return Insufficient, 0; }
      var attempt: nat := 0;
      while true
        invariant LastAttempt(replies, maxRetries, attempt) == LastAttempt(replies, maxRetries, 0)
        invariant budget == old(budget) && governor == Reserve(old(governor), role, old(budget).calls).0
        decreases maxRetries - attempt
      {
        var reply := replies(attempt);
        if reply.Reply? { break; }
        if !reply.retryable || attempt >= maxRetries { return ProviderFailed, attempt + 1; }
        attempt := attempt + 1;
      }
      attempts := attempt + 1;
      var ok := Record(replies(attempt).tokens, replies(attempt).cost);
      answer := if ok then Completed else Overspent;
    }
  }
}
