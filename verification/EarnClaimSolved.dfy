/** No credit without a captcha that a verifier passed, over every interleaving. */
module EarnClaimSolved {
  import opened Common
  import opened EarnClaim
  import Commission

  /** The challenge that the step marks as passed, if it is a verifier's pass. */
  function PassedBy(sys: System, step: Step): set<string> {
    if step.VerifyWrite? && step.verdict.Pass? && step.verifier in sys.verifiers then {sys.verifiers[step.verifier]}
    else {}
  }

  /** The challenges that verifiers passed along a run. */
  function Passed(sys: System, steps: seq<Step>): set<string>
    decreases |steps|
  {
    if steps == [] then {} else PassedBy(sys, steps[0]) + Passed(Next(sys, steps[0]), steps[1..])
  }

  /** A challenge that may be spent, or backs a request, was passed. */
  ghost predicate Accounted(sys: System, passed: set<string>) {
    && (forall c :: c in sys.db.challenges && sys.db.challenges[c].status in {ChVerified, ChConsumed} ==> c in passed)
    && (forall r :: r in sys.requests && (Holds(sys.requests[r]) || sys.requests[r].credited) ==>
          sys.requests[r].challengeId in passed)
  }

  lemma ConsumeAccounts(sys: System, r: nat, passed: set<string>)
    requires Accounted(sys, passed)
    ensures Accounted(Next(sys, Consume(r)), passed)
  {
  }

  lemma CreditAccounts(sys: System, r: nat, fault: Fault, rates: Commission.Rates, passed: set<string>)
    requires Accounted(sys, passed)
    ensures Accounted(Next(sys, Credit(r, fault, rates)), passed)
  {
    if At(sys, r, AtCredit) {
      var q := sys.requests[r];
      CreditLeavesChallenges(sys.db, q, fault, rates);
    }
  }

  lemma CreditLeavesChallenges(db: Db, q: Request, fault: Fault, rates: Commission.Rates)
    ensures
      var out := CreditTx(db, q.key, q.user, q.reward, rates, fault.Fails?);
      out.Committed? ==> out.db.challenges == db.challenges
  {
  }

  lemma WriteAccounts(sys: System, v: nat, verdict: Verdict, passed: set<string>)
    requires Accounted(sys, passed)
    ensures Accounted(Next(sys, VerifyWrite(v, verdict)), passed + PassedBy(sys, VerifyWrite(v, verdict)))
  {
  }

  lemma UnconsumeAccounts(sys: System, r: nat, passed: set<string>)
    requires Accounted(sys, passed)
    ensures Accounted(Next(sys, Unconsume(r)), passed)
  {
  }

  /** The other steps of a request, which move it alone. */
  lemma RequestAccounts(sys: System, step: Step, passed: set<string>)
    requires Accounted(sys, passed) && (step.Arrive? || step.GatePass? || step.GateReject? || step.Crash?)
    ensures Accounted(Next(sys, step), passed)
  {
  }

  /** Steps that touch no request and pass nothing. */
  lemma OthersAccount(sys: System, step: Step, passed: set<string>)
    requires Accounted(sys, passed)
    requires step.Register? || step.StartSession? || step.IssueChallenge? || step.VerifyRead? || step.Expire?
      || step.PostElsewhere? || step.PayoutElsewhere?
    ensures Accounted(Next(sys, step), passed)
  {
  }

  lemma StepAccounts(sys: System, step: Step, passed: set<string>)
    requires Accounted(sys, passed)
    ensures Accounted(Next(sys, step), passed + PassedBy(sys, step))
  {
    if step.VerifyWrite? {
      WriteAccounts(sys, step.verifier, step.verdict, passed);
    } else {
      assert passed + PassedBy(sys, step) == passed;
      QuietStepAccounts(sys, step, passed);
    }
  }

  lemma QuietStepAccounts(sys: System, step: Step, passed: set<string>)
    requires Accounted(sys, passed) && !step.VerifyWrite?
    ensures Accounted(Next(sys, step), passed)
  {
    match step
    case Consume(r) => ConsumeAccounts(sys, r, passed);
    case Credit(r, fault, rates) => CreditAccounts(sys, r, fault, rates, passed);
    case Unconsume(r) => UnconsumeAccounts(sys, r, passed);
    case Arrive(_, _, _, _, _, _) => RequestAccounts(sys, step, passed);
    case GatePass(_) => RequestAccounts(sys, step, passed);
    case GateReject(_) => RequestAccounts(sys, step, passed);
    case Crash(_) => RequestAccounts(sys, step, passed);
    case _ => OthersAccount(sys, step, passed);
  }

  lemma {:induction false} RunAccounts(sys: System, steps: seq<Step>, passed: set<string>)
    requires Accounted(sys, passed)
    ensures Accounted(Run(sys, steps), passed + Passed(sys, steps))
    decreases |steps|
  {
    if steps != [] {
      StepAccounts(sys, steps[0], passed);
      RunAccounts(Next(sys, steps[0]), steps[1..], passed + PassedBy(sys, steps[0]));
      assert passed + PassedBy(sys, steps[0]) + Passed(Next(sys, steps[0]), steps[1..])
          == passed + Passed(sys, steps);
    }
  }

  /** A request is credited only on a challenge that a verifier passed during the run. */
  lemma CreditNeedsPass(steps: seq<Step>, r: nat)
    requires r in Run(INIT, steps).requests && Run(INIT, steps).requests[r].credited
    ensures Run(INIT, steps).requests[r].challengeId in Passed(INIT, steps)
  {
    RunAccounts(INIT, steps, {});
    assert {} + Passed(INIT, steps) == Passed(INIT, steps);
  }
}
