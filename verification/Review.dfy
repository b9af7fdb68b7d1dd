/** Subtask state, the deterministic reviewer and the rework guard. */
module Review {
  import opened Plans
  import opened PlanValidation

  datatype Claim = Claim(id: string, evidence: seq<string>)

  /** What an executed subtask delivers; timestamps are not part of it. */
  datatype Delivery = Delivery(
    hasSummary: bool,
    claims: seq<Claim>,
    evidenceRefs: seq<string>,
    unverified: nat,
    implemented: bool,
    hasApproval: bool,
    testCode: Option<int>)

  datatype Status = Pending | Executed | Passed | Rejected

  /** Issue codes: the deterministic ones by name, a reviewer's own as text. */
  datatype Code =
    | MissingArtifact | UnknownEvidence | ClaimWithoutEvidence | ClaimBadEvidence | EmptySummary | NoContent
    | ReworkEmptyResult | ToolBudgetExceeded | NotImplemented | MissingApproval | TestsFailed | NoClaims
    | DuplicateClaimId | ExecutorUnavailable | UnsupportedRole | ReviewerCode(text: string)

  /** PASS and PASS_WITH_NOTES pass; REWORK and BLOCK do not. */
  datatype Verdict = Verdict(passes: bool, codes: seq<Code>, targets: seq<Id>)

  /** `failure_signature`: the sorted code and target lists are multisets, and the
      digest of the delivery is taken to be collision-free. */
  datatype Signature = Signature(id: Id, role: Role, delivery: Option<Delivery>, codes: multiset<Code>,
                                 targets: multiset<Id>)

  datatype Subtask = Subtask(
    spec: SubtaskSpec,
    status: Status,
    delivery: Option<Delivery>,
    evidenceRefs: seq<string>,
    reviews: seq<Verdict>,
    rework: nat,
    signatures: seq<Signature>,
    superseded: bool)

  function MaxRework(complexity: Complexity): nat {
    match complexity
    case Trivial => 0
    case Simple => 0
    case Standard => 1
    case Complex => 2
  }

  /** `ReworkProgressGuard.has_no_progress`: the last two failures are the same. */
  predicate NoProgress(signatures: seq<Signature>) {
    |signatures| >= 2 && signatures[|signatures| - 1] == signatures[|signatures| - 2]
  }

  function When(condition: bool, code: Code): seq<Code> {
    if condition then [code] else []
  }

  function UnknownRefs(refs: seq<string>, valid: set<string>, code: Code): (r: seq<Code>)
    ensures r == [] <==> forall e :: e in refs ==> e in valid
  {
    if refs == [] then [] else When(refs[0] !in valid, code) + UnknownRefs(refs[1..], valid, code)
  }

  function ClaimIssues(claims: seq<Claim>, valid: set<string>): (r: seq<Code>)
    ensures r == [] <==> forall c :: c in claims ==> c.evidence != [] && forall e :: e in c.evidence ==> e in valid
  {
    if claims == [] then []
    else
      When(claims[0].evidence == [], ClaimWithoutEvidence)
      + UnknownRefs(claims[0].evidence, valid, ClaimBadEvidence)
      + ClaimIssues(claims[1..], valid)
  }

  /** `DeterministicReviewer.check`: the issue codes in source order. */
  function Issues(s: Subtask, valid: set<string>, usedCalls: nat): seq<Code> {
    if s.delivery.None? then [MissingArtifact]
    else
      var d := s.delivery.value;
      UnknownRefs(s.evidenceRefs, valid, UnknownEvidence)
      + ClaimIssues(d.claims, valid)
      + When(!d.hasSummary, EmptySummary)
      + When(d.claims == [] && d.unverified == 0, NoContent)
      + When(s.rework > 0 && d.claims == [] && d.evidenceRefs == [], ReworkEmptyResult)
      + When(usedCalls > s.spec.toolCallBudget, ToolBudgetExceeded)
      + (if s.spec.role.Executor? then ExecutorIssues(d) else [])
      + When(exists i, j :: 0 <= i < j < |d.claims| && d.claims[i].id == d.claims[j].id, DuplicateClaimId)
  }

  function ExecutorIssues(d: Delivery): seq<Code> {
    When(!d.implemented, NotImplemented)
    + When(!d.hasApproval, MissingApproval)
    + When(d.testCode.Some? && d.testCode.value != 0, TestsFailed)
    + When(d.claims == [], NoClaims)
  }

  /** Every identifier a delivery cites is a valid one. */
  ghost predicate Traceable(s: Subtask, valid: set<string>) {
    && s.delivery.Some?
    && (forall e :: e in s.evidenceRefs ==> e in valid)
    && (forall c :: c in s.delivery.value.claims ==> c.evidence != [] && forall e :: e in c.evidence ==> e in valid)
  }

  /** What a clean deterministic review establishes. */
  ghost predicate Acceptable(s: Subtask, valid: set<string>, usedCalls: nat) {
    && Traceable(s, valid)
    && s.delivery.value.hasSummary
    && (s.delivery.value.claims != [] || s.delivery.value.unverified > 0)
    && (s.rework > 0 ==> s.delivery.value.claims != [] || s.delivery.value.evidenceRefs != [])
    && usedCalls <= s.spec.toolCallBudget
    && (s.spec.role.Executor? ==>
          && s.delivery.value.implemented && s.delivery.value.hasApproval && s.delivery.value.claims != []
          && (s.delivery.value.testCode.Some? ==> s.delivery.value.testCode.value == 0))
    && forall i, j :: 0 <= i < j < |s.delivery.value.claims| ==>
         s.delivery.value.claims[i].id != s.delivery.value.claims[j].id
  }

  lemma ReviewIsExact(s: Subtask, valid: set<string>, usedCalls: nat)
    ensures Issues(s, valid, usedCalls) == [] <==> Acceptable(s, valid, usedCalls)
  {
    hide UnknownRefs, ClaimIssues;
  }

  lemma {:induction false} RefsStep(issues: seq<Code>, refs: seq<string>, i: nat, valid: set<string>, code: Code,
                                    unknown: bool)
    requires i < |refs| && unknown == (refs[i] !in valid)
    ensures issues + UnknownRefs(refs[i..], valid, code)
            == issues + When(unknown, code) + UnknownRefs(refs[i + 1..], valid, code)
  {
    assert refs[i..][1..] == refs[i + 1..];
  }

  lemma {:induction false} ClaimsStep(issues: seq<Code>, claims: seq<Claim>, i: nat, valid: set<string>, bare: bool)
    requires i < |claims| && bare == (claims[i].evidence == [])
    ensures issues + ClaimIssues(claims[i..], valid)
            == issues + (When(bare, ClaimWithoutEvidence) + UnknownRefs(claims[i].evidence, valid, ClaimBadEvidence))
               + ClaimIssues(claims[i + 1..], valid)
  {
    assert claims[i..][1..] == claims[i + 1..];
  }

  /** The evidence loop and the claim loop, each appending to the issue list. */
  method CheckRefs(refs: seq<string>, valid: set<string>, code: Code) returns (issues: seq<Code>)
    ensures issues == UnknownRefs(refs, valid, code)
  {
    issues := [];
    for i := 0 to |refs|
      invariant issues + UnknownRefs(refs[i..], valid, code) == UnknownRefs(refs, valid, code)
    {
      var unknown := refs[i] !in valid;
      RefsStep(issues, refs, i, valid, code, unknown);
      issues := issues + When(unknown, code);
    }
  }

  method CheckClaims(claims: seq<Claim>, valid: set<string>) returns (issues: seq<Code>)
    ensures issues == ClaimIssues(claims, valid)
  {
    issues := [];
    for i := 0 to |claims|
      invariant issues + ClaimIssues(claims[i..], valid) == ClaimIssues(claims, valid)
    {
      var bare := claims[i].evidence == [];
      ClaimsStep(issues, claims, i, valid, bare);
      var bad := CheckRefs(claims[i].evidence, valid, ClaimBadEvidence);
      issues := issues + (When(bare, ClaimWithoutEvidence) + bad);
    }
  }

  /** `check` itself: stops at a missing delivery, otherwise collects every issue. */
  method Check(s: Subtask, valid: set<string>, usedCalls: nat) returns (issues: seq<Code>)
    ensures issues == Issues(s, valid, usedCalls)
  {
    if s.delivery.None? { return [MissingArtifact]; }
    var d := s.delivery.value;
    var refs := CheckRefs(s.evidenceRefs, valid, UnknownEvidence);
    var claims := CheckClaims(d.claims, valid);
    issues := refs + claims
      + When(!d.hasSummary, EmptySummary)
      + When(d.claims == [] && d.unverified == 0, NoContent)
      + When(s.rework > 0 && d.claims == [] && d.evidenceRefs == [], ReworkEmptyResult)
      + When(usedCalls > s.spec.toolCallBudget, ToolBudgetExceeded)
      + (if s.spec.role.Executor? then ExecutorIssues(d) else [])
      + When(exists i, j :: 0 <= i < j < |d.claims| && d.claims[i].id == d.claims[j].id, DuplicateClaimId);
  }

  // ----- What each code means -----

  ghost predicate CitesUnknown(refs: seq<string>, valid: set<string>) {
    exists e :: e in refs && e !in valid
  }

  lemma {:induction false} UnknownRefsHas(refs: seq<string>, valid: set<string>, code: Code, c: Code)
    ensures c in UnknownRefs(refs, valid, code) <==> c == code && CitesUnknown(refs, valid)
  {
    if refs != [] {
      UnknownRefsHas(refs[1..], valid, code, c);
      assert refs == [refs[0]] + refs[1..];
    }
  }

  /** What is wrong with one claim. */
  ghost predicate ClaimFault(k: Claim, valid: set<string>, c: Code) {
    (c == ClaimWithoutEvidence && k.evidence == []) || (c == ClaimBadEvidence && CitesUnknown(k.evidence, valid))
  }

  ghost predicate SomeClaimFault(claims: seq<Claim>, valid: set<string>, c: Code) {
    exists k :: k in claims && ClaimFault(k, valid, c)
  }

  lemma {:induction false} ClaimIssuesHas(claims: seq<Claim>, valid: set<string>, c: Code)
    ensures c in ClaimIssues(claims, valid) <==> SomeClaimFault(claims, valid, c)
  {
    if claims != [] {
      hide UnknownRefs, CitesUnknown;
      var k, rest := claims[0], claims[1..];
      assert claims == [k] + rest;
      UnknownRefsHas(k.evidence, valid, ClaimBadEvidence, c);
      ClaimIssuesHas(rest, valid, c);
      assert c in ClaimIssues(claims, valid) <==> ClaimFault(k, valid, c) || c in ClaimIssues(rest, valid);
      if exists x :: x in claims && ClaimFault(x, valid, c) {
        var x :| x in claims && ClaimFault(x, valid, c);
        assert x == k || x in rest;
      }
      if exists x :: x in rest && ClaimFault(x, valid, c) {
        var x :| x in rest && ClaimFault(x, valid, c);
        assert x in claims;
      }
      assert ClaimFault(k, valid, c) ==> k in claims;
    }
  }

  ghost predicate RepeatsClaim(claims: seq<Claim>) {
    exists i, j :: 0 <= i < j < |claims| && claims[i].id == claims[j].id
  }

  /** What is wrong with a delivery, by the code it is sent back with. */
  ghost predicate Fault(s: Subtask, d: Delivery, valid: set<string>, usedCalls: nat, c: Code) {
    match c
    case UnknownEvidence => CitesUnknown(s.evidenceRefs, valid)
    case ClaimWithoutEvidence => SomeClaimFault(d.claims, valid, c)
    case ClaimBadEvidence => SomeClaimFault(d.claims, valid, c)
    case EmptySummary => !d.hasSummary
    case NoContent => d.claims == [] && d.unverified == 0
    case ReworkEmptyResult => s.rework > 0 && d.claims == [] && d.evidenceRefs == []
    case ToolBudgetExceeded => usedCalls > s.spec.toolCallBudget
    case NotImplemented => s.spec.role.Executor? && !d.implemented
    case MissingApproval => s.spec.role.Executor? && !d.hasApproval
    case TestsFailed => s.spec.role.Executor? && d.testCode.Some? && d.testCode.value != 0
    case NoClaims => s.spec.role.Executor? && d.claims == []
    case DuplicateClaimId => RepeatsClaim(d.claims)
    case _ => false
  }

  lemma WhenHas(condition: bool, code: Code, c: Code)
    ensures c in When(condition, code) <==> condition && c == code
  {
  }

  lemma ExecutorIssuesHas(d: Delivery, c: Code)
    ensures c in ExecutorIssues(d) <==>
            || (c == NotImplemented && !d.implemented) || (c == MissingApproval && !d.hasApproval)
            || (c == TestsFailed && d.testCode.Some? && d.testCode.value != 0) || (c == NoClaims && d.claims == [])
  {
  }

  lemma NoOtherClaimFaults(claims: seq<Claim>, valid: set<string>, c: Code)
    requires c != ClaimWithoutEvidence && c != ClaimBadEvidence
    ensures !SomeClaimFault(claims, valid, c)
  {
  }

  lemma InSum(a: seq<Code>, b: seq<Code>, c: Code)
    ensures c in a + b <==> c in a || c in b
  {
  }

  /** The checks that apply to every delivery, without those of its claims and references. */
  function ContentIssues(s: Subtask, d: Delivery, usedCalls: nat): seq<Code> {
    When(!d.hasSummary, EmptySummary)
    + When(d.claims == [] && d.unverified == 0, NoContent)
    + When(s.rework > 0 && d.claims == [] && d.evidenceRefs == [], ReworkEmptyResult)
    + When(usedCalls > s.spec.toolCallBudget, ToolBudgetExceeded)
  }

  lemma ContentIssuesHas(s: Subtask, d: Delivery, usedCalls: nat, c: Code)
    ensures c in ContentIssues(s, d, usedCalls) <==>
            || (c == EmptySummary && !d.hasSummary) || (c == NoContent && d.claims == [] && d.unverified == 0)
            || (c == ReworkEmptyResult && s.rework > 0 && d.claims == [] && d.evidenceRefs == [])
            || (c == ToolBudgetExceeded && usedCalls > s.spec.toolCallBudget)
  {
  }

  lemma IssuesSplit(s: Subtask, valid: set<string>, usedCalls: nat)
    requires s.delivery.Some?
    ensures var d := s.delivery.value;
            Issues(s, valid, usedCalls)
            == UnknownRefs(s.evidenceRefs, valid, UnknownEvidence) + (ClaimIssues(d.claims, valid)
               + (ContentIssues(s, d, usedCalls) + ((if s.spec.role.Executor? then ExecutorIssues(d) else [])
                  + When(RepeatsClaim(d.claims), DuplicateClaimId))))
  {
    hide UnknownRefs, ClaimIssues, ExecutorIssues, When;
  }

  lemma InFive(a: seq<Code>, b: seq<Code>, e: seq<Code>, f: seq<Code>, g: seq<Code>, c: Code)
    ensures c in a + (b + (e + (f + g))) <==> c in a || c in b || c in e || c in f || c in g
  {
    InSum(a, b + (e + (f + g)), c);
    InSum(b, e + (f + g), c);
    InSum(e, f + g, c);
    InSum(f, g, c);
  }

  lemma IssuesHas(s: Subtask, valid: set<string>, usedCalls: nat, c: Code)
    requires s.delivery.Some?
    ensures var d := s.delivery.value;
            c in Issues(s, valid, usedCalls) <==>
              || c in UnknownRefs(s.evidenceRefs, valid, UnknownEvidence) || c in ClaimIssues(d.claims, valid)
              || c in ContentIssues(s, d, usedCalls) || (s.spec.role.Executor? && c in ExecutorIssues(d))
              || c in When(RepeatsClaim(d.claims), DuplicateClaimId)
  {
    hide UnknownRefs, ClaimIssues, ExecutorIssues, When, ContentIssues, Issues, RepeatsClaim;
    var d := s.delivery.value;
    IssuesSplit(s, valid, usedCalls);
    InFive(UnknownRefs(s.evidenceRefs, valid, UnknownEvidence), ClaimIssues(d.claims, valid),
           ContentIssues(s, d, usedCalls), if s.spec.role.Executor? then ExecutorIssues(d) else [],
           When(RepeatsClaim(d.claims), DuplicateClaimId), c);
  }

  /** A delivery is sent back with a code exactly for the fault the code stands for, and a
      missing one with the code for that alone. */
  lemma CodesAreExact(s: Subtask, valid: set<string>, usedCalls: nat, c: Code)
    ensures c in Issues(s, valid, usedCalls) <==>
            if s.delivery.None? then c == MissingArtifact else Fault(s, s.delivery.value, valid, usedCalls, c)
  {
    if s.delivery.Some? {
      hide UnknownRefs, ClaimIssues, ExecutorIssues, When, CitesUnknown, SomeClaimFault, ContentIssues;
      hide Issues, RepeatsClaim;
      var d := s.delivery.value;
      IssuesHas(s, valid, usedCalls, c);
      UnknownRefsHas(s.evidenceRefs, valid, UnknownEvidence, c);
      ClaimIssuesHas(d.claims, valid, c);
      ContentIssuesHas(s, d, usedCalls, c);
      ExecutorIssuesHas(d, c);
      WhenHas(RepeatsClaim(d.claims), DuplicateClaimId, c);
      if c != ClaimWithoutEvidence && c != ClaimBadEvidence { NoOtherClaimFaults(d.claims, valid, c); }
    }
  }
}
