/** A solved captcha is spent once: invariants of the challenge rows over every interleaving. */
module EarnClaimTokens {
  import opened Common
  import opened Books
  import opened EarnClaim
  import Commission

  /** The requests whose credit was backed by a challenge. */
  function CreditedBy(requests: map<nat, Request>, c: string): set<nat> {
    set r | r in requests && requests[r].challengeId == c && requests[r].credited
  }

  /** Those of them that do not know it: their commit was reported as an exception. */
  function UnackedBy(requests: map<nat, Request>, c: string): set<nat> {
    set r | r in requests && requests[r].challengeId == c && requests[r].credited && requests[r].pc != Credited
  }

  /** Spending rights: one per solved challenge, plus one for every time it was reopened. */
  ghost predicate TokenBound(sys: System, c: string)
    requires c in sys.db.challenges
  {
    var held, status := |Holders(sys.requests, c)|, sys.db.challenges[c].status;
    if status == ChIssued then held == 0
    else held + (if status == ChVerified then 1 else 0) <= 1 + TraceOf(sys, c).reopened
  }

  /** As long as verifiers leave held challenges alone, one is `consumed` exactly while one request holds it. */
  ghost predicate SingleOwner(sys: System, c: string)
    requires c in sys.db.challenges
  {
    TraceOf(sys, c).clobbered == 0 ==>
      |Holders(sys.requests, c)| == (if sys.db.challenges[c].status == ChConsumed then 1 else 0)
  }

  /** A holder's challenge exists and is bound to that holder's user. */
  ghost predicate BoundToUser(sys: System, r: nat)
    requires r in sys.requests
  {
    var q := sys.requests[r];
    Holds(q) || q.credited ==>
      && q.challengeId != ""
      && q.challengeId in sys.db.challenges
      && sys.db.challenges[q.challengeId].user == Some(q.user)
  }

  /** A request that knows of its credit has one, and one that may still be credited has none. */
  ghost predicate FlagFits(q: Request) {
    (q.pc == Credited ==> q.credited) && (q.pc in {AtConsume, AtGates, AtCredit} ==> !q.credited)
  }

  ghost predicate TokenInv(sys: System) {
    && (forall r :: r in sys.requests ==> BoundToUser(sys, r) && FlagFits(sys.requests[r]))
    && (forall c :: c in sys.db.challenges ==> TokenBound(sys, c) && SingleOwner(sys, c))
  }

  // ----- One request moves -----

  /** Moving one request changes the holders of its own challenge only, by at most itself. */
  lemma MoveHolders(requests: map<nat, Request>, r: nat, q: Request, c: string)
    requires r in requests ==> requests[r].challengeId == q.challengeId
    ensures Holders(requests[r := q], c)
         == if q.challengeId == c && Holds(q) then Holders(requests, c) + {r} else Holders(requests, c) - {r}
  {
  }

  /** The cardinality form of `MoveHolders`. */
  lemma CountHolders(requests: map<nat, Request>, r: nat, q: Request, c: string)
    requires r in requests ==> requests[r].challengeId == q.challengeId
    ensures |Holders(requests[r := q], c)| == |Holders(requests, c)|
        + (if q.challengeId == c && Holds(q) then 1 else 0)
        - (if r in requests && q.challengeId == c && Holds(requests[r]) then 1 else 0)
  {
    MoveHolders(requests, r, q, c);
    var before := Holders(requests, c);
    assert r in before <==> r in requests && q.challengeId == c && Holds(requests[r]);
  }

  /** The request keeps its identity and owes its challenge nothing new. */
  ghost predicate Continues(requests: map<nat, Request>, r: nat, q: Request) {
    && FlagFits(q)
    && (r in requests ==> requests[r].challengeId == q.challengeId && requests[r].user == q.user)
    && (q.credited ==> r in requests && (Holds(requests[r]) || requests[r].credited))
  }

  /** A step that leaves the challenges alone and neither gains nor loses a holder. */
  lemma KeepTokens(sys: System, sys': System, r: nat, q: Request)
    requires TokenInv(sys)
    requires sys'.db.challenges == sys.db.challenges && sys'.requests == sys.requests[r := q]
    requires forall c :: TraceOf(sys', c).clobbered == TraceOf(sys, c).clobbered
    requires forall c :: TraceOf(sys', c).reopened == TraceOf(sys, c).reopened
    requires Continues(sys.requests, r, q) && (Holds(q) <==> r in sys.requests && Holds(sys.requests[r]))
    ensures TokenInv(sys')
  {
    forall c | c in sys'.db.challenges ensures TokenBound(sys', c) && SingleOwner(sys', c) {
      CountHolders(sys.requests, r, q, c);
      assert TokenBound(sys, c) && SingleOwner(sys, c);
    }
    forall r' | r' in sys'.requests ensures BoundToUser(sys', r') && FlagFits(sys'.requests[r']) {
      if r' in sys.requests { assert BoundToUser(sys, r'); }
    }
  }

  /** Consuming and compensating: one challenge changes status and one request changes sides. */
  lemma ExchangeTokens(sys: System, sys': System, r: nat, c: string)
    requires TokenInv(sys)
    requires r in sys.requests && r in sys'.requests && c in sys.db.challenges && c != ""
    requires sys.requests[r].challengeId == c && sys.db.challenges[c].user == Some(sys.requests[r].user)
    requires exists status, pc ::
      && sys'.db.challenges == sys.db.challenges[c := sys.db.challenges[c].(status := status)]
      && sys'.requests == sys.requests[r := sys.requests[r].(pc := pc)]
    requires sys'.traces == sys.traces && FlagFits(sys'.requests[r])
    requires
      var before, after := sys.db.challenges[c].status, sys'.db.challenges[c].status;
      || (before == ChVerified && after == ChConsumed && !Holds(sys.requests[r]) && Holds(sys'.requests[r]))
      || (before == ChConsumed && after == ChVerified && Holds(sys.requests[r]) && !Holds(sys'.requests[r]))
    ensures TokenInv(sys')
  {
    var q := sys'.requests[r];
    assert sys'.requests == sys.requests[r := q];
    forall c' | c' in sys'.db.challenges ensures TokenBound(sys', c') && SingleOwner(sys', c') {
      CountHolders(sys.requests, r, q, c');
      assert TokenBound(sys, c') && SingleOwner(sys, c');
    }
    forall r' | r' in sys'.requests ensures BoundToUser(sys', r') && FlagFits(sys'.requests[r']) {
      assert BoundToUser(sys, r');
    }
  }

  lemma ConsumeKeepsTokens(sys: System, r: nat)
    requires TokenInv(sys)
    ensures TokenInv(Next(sys, Consume(r)))
  {
    if At(sys, r, AtConsume) {
      var q := sys.requests[r];
      var sys' := Next(sys, Consume(r));
      if Spendable(sys.db, q.challengeId, q.user) {
        assert sys'.db.challenges ==
          sys.db.challenges[q.challengeId := sys.db.challenges[q.challengeId].(status := ChConsumed)];
        assert sys'.requests == sys.requests[r := q.(pc := AtGates)];
        ExchangeTokens(sys, sys', r, q.challengeId);
      } else {
        KeepTokens(sys, sys', r, q.(pc := Refused));
      }
    }
  }

  /** The compensation gives back at most what its own request had taken. */
  lemma UnconsumeKeepsTokens(sys: System, r: nat)
    requires TokenInv(sys)
    ensures TokenInv(Next(sys, Unconsume(r)))
  {
    if At(sys, r, AtUnconsume) {
      var q := sys.requests[r];
      var sys' := Next(sys, Unconsume(r));
      assert BoundToUser(sys, r);
      if UnconsumeTx(sys.db, q.challengeId, q.user).1 {
        assert sys'.db.challenges ==
          sys.db.challenges[q.challengeId := sys.db.challenges[q.challengeId].(status := ChVerified)];
        assert sys'.requests == sys.requests[r := q.(pc := Refused)];
        ExchangeTokens(sys, sys', r, q.challengeId);
      } else {
        assert r in Holders(sys.requests, q.challengeId);
        DropHolder(sys, sys', r);
      }
    }
  }

  /** The guarded compensation finds the challenge rewritten, and gives nothing back. */
  lemma DropHolder(sys: System, sys': System, r: nat)
    requires TokenInv(sys) && At(sys, r, AtUnconsume)
    requires sys.requests[r].challengeId in sys.db.challenges
    requires sys.db.challenges[sys.requests[r].challengeId].status != ChConsumed
    requires sys' == Goto(sys, r, Refused)
    ensures TokenInv(sys')
  {
    var q := sys.requests[r].(pc := Refused);
    forall c | c in sys'.db.challenges ensures TokenBound(sys', c) && SingleOwner(sys', c) {
      CountHolders(sys.requests, r, q, c);
      assert r in Holders(sys.requests, q.challengeId);
      assert TokenBound(sys, c) && SingleOwner(sys, c);
    }
    forall r' | r' in sys'.requests ensures BoundToUser(sys', r') && FlagFits(sys'.requests[r']) {
      assert BoundToUser(sys, r');
    }
  }

  lemma VerifyWriteKeepsTokens(sys: System, v: nat, verdict: Verdict)
    requires TokenInv(sys)
    ensures TokenInv(Next(sys, VerifyWrite(v, verdict)))
  {
    var sys' := VerifyWriteStep(sys, v, verdict);
    if v in sys.verifiers && sys.verifiers[v] in sys.db.challenges {
      forall c | c in sys'.db.challenges ensures TokenBound(sys', c) && SingleOwner(sys', c) {
        assert TokenBound(sys, c) && SingleOwner(sys, c);
      }
      forall r | r in sys'.requests ensures BoundToUser(sys', r) && FlagFits(sys'.requests[r]) {
        assert BoundToUser(sys, r);
      }
    }
  }

  lemma NoHolders(sys: System, c: string)
    requires TokenInv(sys) && c !in sys.db.challenges
    ensures Holders(sys.requests, c) == {}
  {
    forall r | r in sys.requests ensures !(sys.requests[r].challengeId == c && Holds(sys.requests[r])) {
      assert BoundToUser(sys, r);
    }
  }

  lemma IssueKeepsTokens(sys: System, c: string, owner: Option<nat>)
    requires TokenInv(sys)
    ensures TokenInv(Next(sys, IssueChallenge(c, owner)))
  {
    var sys' := Next(sys, IssueChallenge(c, owner));
    forall r | r in sys'.requests ensures BoundToUser(sys', r) && FlagFits(sys'.requests[r]) {
      assert BoundToUser(sys, r);
    }
    forall c' | c' in sys'.db.challenges ensures TokenBound(sys', c') && SingleOwner(sys', c') {
      if c' in sys.db.challenges { assert TokenBound(sys, c') && SingleOwner(sys, c'); }
      else { NoHolders(sys, c'); }
    }
  }

  lemma ExpireKeepsTokens(sys: System, c: string)
    requires TokenInv(sys)
    ensures TokenInv(Next(sys, Expire(c)))
  {
    var sys' := Next(sys, Expire(c));
    forall r | r in sys'.requests ensures BoundToUser(sys', r) && FlagFits(sys'.requests[r]) {
      assert BoundToUser(sys, r);
    }
    forall c' | c' in sys'.db.challenges ensures TokenBound(sys', c') && SingleOwner(sys', c') {
      assert TokenBound(sys, c') && SingleOwner(sys, c');
    }
  }

  /** Nothing but `consume`, `unconsume`, expiry and the verifier touches a challenge. */
  lemma CreditLeavesChallenges(sys: System, r: nat, fault: Fault, rates: Commission.Rates)
    requires At(sys, r, AtCredit)
    ensures var sys' := CreditStep(sys, r, fault, rates);
      && sys'.db.challenges == sys.db.challenges
      && r in sys'.requests && sys'.requests == sys.requests[r := sys'.requests[r]]
      && sys'.requests[r].(pc := AtCredit, credited := sys.requests[r].credited) == sys.requests[r]
      && (if sys'.requests[r].credited && !sys.requests[r].credited then sys'.requests[r].pc in {Credited, AtUnconsume}
          else sys'.requests[r].pc == AtUnconsume || sys.requests[r].credited)
      && Holds(sys'.requests[r])
      && (forall c :: TraceOf(sys', c).clobbered == TraceOf(sys, c).clobbered)
      && (forall c :: TraceOf(sys', c).reopened == TraceOf(sys, c).reopened)
  {
  }

  lemma CreditKeepsTokens(sys: System, r: nat, fault: Fault, rates: Commission.Rates)
    requires TokenInv(sys)
    ensures TokenInv(CreditStep(sys, r, fault, rates))
  {
    if At(sys, r, AtCredit) {
      assert FlagFits(sys.requests[r]);
      CreditLeavesChallenges(sys, r, fault, rates);
      var sys' := CreditStep(sys, r, fault, rates);
      KeepTokens(sys, sys', r, sys'.requests[r]);
    }
  }

  lemma GateKeepsTokens(sys: System, step: Step)
    requires TokenInv(sys) && (step.GatePass? || step.GateReject?)
    ensures TokenInv(Next(sys, step))
  {
    if At(sys, step.request, AtGates) {
      var sys' := Next(sys, step);
      KeepTokens(sys, sys', step.request, sys'.requests[step.request]);
    }
  }

  lemma CrashKeepsTokens(sys: System, r: nat)
    requires TokenInv(sys)
    ensures TokenInv(Next(sys, Crash(r)))
  {
    if r in sys.requests && sys.requests[r].pc in {AtConsume, AtGates, AtCredit, AtUnconsume} {
      var pc := if sys.requests[r].pc == AtConsume then Refused else Burned;
      KeepTokens(sys, Goto(sys, r, pc), r, sys.requests[r].(pc := pc));
    }
  }

  lemma ArriveKeepsTokens(sys: System, step: Step)
    requires TokenInv(sys) && step.Arrive?
    ensures TokenInv(Next(sys, step))
  {
    var sys' := Next(sys, step);
    if step.request in sys'.requests && step.request !in sys.requests {
      KeepTokens(sys, sys', step.request, sys'.requests[step.request]);
    }
  }

  lemma SameTokens(sys: System, sys': System)
    requires TokenInv(sys)
    requires sys'.requests == sys.requests && sys'.db.challenges == sys.db.challenges && sys'.traces == sys.traces
    ensures TokenInv(sys')
  {
    forall r | r in sys'.requests ensures BoundToUser(sys', r) {
      assert BoundToUser(sys, r);
    }
    forall c | c in sys'.db.challenges ensures TokenBound(sys', c) && SingleOwner(sys', c) {
      assert TokenBound(sys, c) && SingleOwner(sys, c);
    }
  }

  lemma StepKeepsTokens(sys: System, step: Step)
    requires TokenInv(sys)
    ensures TokenInv(Next(sys, step))
  {
    match step
    case VerifyWrite(v, verdict) => VerifyWriteKeepsTokens(sys, v, verdict);
    case IssueChallenge(c, owner) => IssueKeepsTokens(sys, c, owner);
    case Expire(c) => ExpireKeepsTokens(sys, c);
    case Consume(r) => ConsumeKeepsTokens(sys, r);
    case Unconsume(r) => UnconsumeKeepsTokens(sys, r);
    case Arrive(_, _, _, _, _, _) => ArriveKeepsTokens(sys, step);
    case GatePass(_) => GateKeepsTokens(sys, step);
    case GateReject(_) => GateKeepsTokens(sys, step);
    case Credit(r, fault, rates) => CreditKeepsTokens(sys, r, fault, rates);
    case Crash(r) => CrashKeepsTokens(sys, r);
    case _ => SameTokens(sys, Next(sys, step));
  }

  lemma {:induction false} RunKeepsTokens(sys: System, steps: seq<Step>)
    requires TokenInv(sys)
    ensures TokenInv(Run(sys, steps))
    decreases |steps|
  {
    if steps != [] {
      StepKeepsTokens(sys, steps[0]);
      RunKeepsTokens(Next(sys, steps[0]), steps[1..]);
    }
  }

  // ----- Credits that were reported as failures -----

  /** Every credit its request does not know of was noted on its challenge. */
  ghost predicate UnackedNoted(sys: System) {
    forall c :: |UnackedBy(sys.requests, c)| <= TraceOf(sys, c).unacked
  }

  /** The request is credited without knowing it. */
  predicate Hidden(requests: map<nat, Request>, r: nat, c: string) {
    r in requests && requests[r].challengeId == c && requests[r].credited && requests[r].pc != Credited
  }

  /** Only a credit makes a request credited, and only an unacknowledged one hides it. */
  lemma CreditHides(sys: System, r: nat, fault: Fault, rates: Commission.Rates, r': nat, c: string)
    requires TokenInv(sys) && Hidden(CreditStep(sys, r, fault, rates).requests, r', c)
    ensures Hidden(sys.requests, r', c)
      || (r' == r && TraceOf(CreditStep(sys, r, fault, rates), c).unacked == TraceOf(sys, c).unacked + 1)
  {
    if r' in sys.requests { assert FlagFits(sys.requests[r']); }
  }

  /** Other steps credit nobody, and leave credited requests where they know it. */
  lemma OthersHideNothing(sys: System, step: Step, r: nat, c: string)
    requires !step.Credit? && Hidden(Next(sys, step).requests, r, c)
    ensures Hidden(sys.requests, r, c)
  {
    match step
    case Arrive(_, _, _, _, _, _) =>
    case Consume(_) =>
    case GatePass(_) =>
    case GateReject(_) =>
    case Unconsume(_) =>
    case Crash(_) =>
    case Credit(_, _, _) =>
    case _ => assert Next(sys, step).requests == sys.requests;
  }

  lemma StepNotesUnacked(sys: System, step: Step)
    requires TokenInv(sys) && UnackedNoted(sys)
    ensures UnackedNoted(Next(sys, step))
  {
    var sys' := Next(sys, step);
    forall c ensures |UnackedBy(sys'.requests, c)| <= TraceOf(sys', c).unacked {
      TracesGrow(sys, step, c);
      forall r | r in UnackedBy(sys'.requests, c) ensures r in UnackedBy(sys.requests, c)
        || (step.Credit? && step.request == r && TraceOf(sys', c).unacked == TraceOf(sys, c).unacked + 1)
      {
        assert Hidden(sys'.requests, r, c);
        if step.Credit? { CreditHides(sys, step.request, step.fault, step.rates, r, c); }
        else { OthersHideNothing(sys, step, r, c); }
      }
      if step.Credit? && TraceOf(sys', c).unacked == TraceOf(sys, c).unacked + 1 {
        SubsetCount(UnackedBy(sys'.requests, c), UnackedBy(sys.requests, c) + {step.request});
      } else {
        SubsetCount(UnackedBy(sys'.requests, c), UnackedBy(sys.requests, c));
      }
    }
  }

  lemma TracesGrow(sys: System, step: Step, c: string)
    ensures TraceOf(sys, c).unacked <= TraceOf(Next(sys, step), c).unacked <= TraceOf(sys, c).unacked + 1
  {
  }

  lemma {:induction false} RunNotesUnacked(sys: System, steps: seq<Step>)
    requires TokenInv(sys) && UnackedNoted(sys)
    ensures UnackedNoted(Run(sys, steps))
    decreases |steps|
  {
    if steps != [] {
      StepKeepsTokens(sys, steps[0]);
      StepNotesUnacked(sys, steps[0]);
      RunNotesUnacked(Next(sys, steps[0]), steps[1..]);
    }
  }

  // ----- Verifiers that take turns -----

  /** In the run no verifier starts on a challenge while another is at work on it. */
  ghost predicate VerifiersTakeTurns(sys: System, steps: seq<Step>)
    decreases |steps|
  {
    steps != [] ==>
      && (steps[0].VerifyRead? ==> forall v :: v in sys.verifiers ==> sys.verifiers[v] != steps[0].challengeId)
      && VerifiersTakeTurns(Next(sys, steps[0]), steps[1..])
  }

  /** A challenge no verifier has decided yet. */
  predicate Undecided(db: Db, c: string) {
    c in db.challenges && db.challenges[c].status in {ChIssued, ChExpired}
  }

  /** Each verifier at work has its challenge to itself and undecided, and no held one was written to. */
  ghost predicate TurnInv(sys: System) {
    && (forall v :: v in sys.verifiers ==> Undecided(sys.db, sys.verifiers[v]))
    && (forall v, w :: v in sys.verifiers && w in sys.verifiers && sys.verifiers[v] == sys.verifiers[w] ==> v == w)
    && (forall c :: TraceOf(sys, c).clobbered == 0 && TraceOf(sys, c).reopened == 0)
  }

  /** Apart from verifiers, no step decides a challenge. */
  lemma UndecidedStays(sys: System, step: Step, c: string)
    requires !step.VerifyWrite? && Undecided(sys.db, c)
    ensures Undecided(Next(sys, step).db, c)
  {
  }

  lemma OthersKeepTraces(sys: System, step: Step, c: string)
    requires !step.VerifyWrite?
    ensures TraceOf(Next(sys, step), c).clobbered == TraceOf(sys, c).clobbered
    ensures TraceOf(Next(sys, step), c).reopened == TraceOf(sys, c).reopened
  {
  }

  lemma OthersKeepVerifiers(sys: System, step: Step)
    requires !step.VerifyWrite? && !step.VerifyRead?
    ensures Next(sys, step).verifiers == sys.verifiers
  {
  }

  lemma WriteKeepsTurns(sys: System, v: nat, verdict: Verdict)
    requires TokenInv(sys) && TurnInv(sys)
    ensures TurnInv(VerifyWriteStep(sys, v, verdict))
  {
    if v in sys.verifiers {
      var c := sys.verifiers[v];
      var sys' := VerifyWriteStep(sys, v, verdict);
      assert Undecided(sys.db, c);
      assert SingleOwner(sys, c);
      assert Holders(sys.requests, c) == {};
      forall c' ensures TraceOf(sys', c') == TraceOf(sys, c') {
      }
      forall w | w in sys'.verifiers ensures Undecided(sys'.db, sys'.verifiers[w]) {
        assert w in sys.verifiers && sys.verifiers[w] != c;
      }
    }
  }

  lemma StepKeepsTurns(sys: System, step: Step)
    requires TokenInv(sys) && TurnInv(sys)
    requires step.VerifyRead? ==> forall v :: v in sys.verifiers ==> sys.verifiers[v] != step.challengeId
    ensures TurnInv(Next(sys, step))
  {
    if step.VerifyWrite? {
      WriteKeepsTurns(sys, step.verifier, step.verdict);
    } else {
      var sys' := Next(sys, step);
      forall c ensures TraceOf(sys', c).clobbered == 0 && TraceOf(sys', c).reopened == 0 {
        OthersKeepTraces(sys, step, c);
      }
      if !step.VerifyRead? {
        OthersKeepVerifiers(sys, step);
        forall v | v in sys'.verifiers ensures Undecided(sys'.db, sys'.verifiers[v]) {
          UndecidedStays(sys, step, sys.verifiers[v]);
        }
      }
    }
  }

  lemma {:induction false} RunKeepsTurns(sys: System, steps: seq<Step>)
    requires TokenInv(sys) && TurnInv(sys) && VerifiersTakeTurns(sys, steps)
    ensures TurnInv(Run(sys, steps))
    decreases |steps|
  {
    if steps != [] {
      StepKeepsTokens(sys, steps[0]);
      StepKeepsTurns(sys, steps[0]);
      RunKeepsTurns(Next(sys, steps[0]), steps[1..]);
    }
  }

  /** Taking turns in one run and then in its continuation. */
  lemma {:induction false} TurnsAppend(sys: System, a: seq<Step>, b: seq<Step>)
    requires VerifiersTakeTurns(sys, a) && VerifiersTakeTurns(Run(sys, a), b)
    ensures VerifiersTakeTurns(sys, a + b)
    decreases |a|
  {
    if a == [] {
      assert a + b == b;
    } else {
      assert (a + b)[1..] == a[1..] + b;
      TurnsAppend(Next(sys, a[0]), a[1..], b);
    }
  }

  // ----- What a run guarantees -----

  /**
   * Over every interleaving of any number of requests, with aborted credits, crashes and
   * compensations, a challenge backs at most one credit, plus one for each time a verifier
   * made it spendable again while a request held it, plus one for each credit that committed
   * and was reported as an exception.
   */
  lemma CreditsPerChallenge(steps: seq<Step>, c: string)
    ensures var sys := Run(INIT, steps);
      |CreditedBy(sys.requests, c)| <= 1 + TraceOf(sys, c).reopened + TraceOf(sys, c).unacked
  {
    RunKeepsTokens(INIT, steps);
    RunNotesUnacked(INIT, steps);
    var sys := Run(INIT, steps);
    var held, hidden := Holders(sys.requests, c), UnackedBy(sys.requests, c);
    assert CreditedBy(sys.requests, c) <= held + hidden;
    SubsetCount(CreditedBy(sys.requests, c), held + hidden);
    UnionCount(held, hidden);
    if c in sys.db.challenges { assert TokenBound(sys, c); } else { NoHolders(sys, c); }
  }

  lemma SubsetCount<T>(a: set<T>, b: set<T>)
    requires a <= b
    ensures |a| <= |b|
  {
    assert b == a + (b - a);
  }

  lemma UnionCount<T>(a: set<T>, b: set<T>)
    ensures |a + b| <= |a| + |b|
  {
    assert a + b == a + (b - a);
    SubsetCount(b - a, b);
  }

  /**
   * When verifiers take turns on a challenge, none of them writes to one that a request
   * holds, although the cleanup may expire a challenge under a verifier at work.
   */
  lemma TurnsMeanNoHeldWrite(steps: seq<Step>, c: string)
    requires VerifiersTakeTurns(INIT, steps)
    ensures TraceOf(Run(INIT, steps), c).clobbered == 0 && TraceOf(Run(INIT, steps), c).reopened == 0
  {
    RunKeepsTurns(INIT, steps);
  }

  /** Both requests were credited on the strength of one challenge. */
  predicate ShareChallenge(requests: map<nat, Request>, r1: nat, r2: nat) {
    && r1 in requests && r2 in requests && requests[r1].credited && requests[r2].credited
    && requests[r1].challengeId == requests[r2].challengeId
  }

  /**
   * Two credits never share a challenge, as long as verifiers take turns on it and every
   * commit is acknowledged.
   */
  lemma ChallengeBacksOneCredit(steps: seq<Step>, r1: nat, r2: nat)
    requires VerifiersTakeTurns(INIT, steps)
    requires var sys := Run(INIT, steps);
      ShareChallenge(sys.requests, r1, r2) && TraceOf(sys, sys.requests[r1].challengeId).unacked == 0
    ensures r1 == r2
  {
    var sys := Run(INIT, steps);
    var c := sys.requests[r1].challengeId;
    TurnsMeanNoHeldWrite(steps, c);
    CreditsPerChallenge(steps, c);
    assert {r1, r2} <= CreditedBy(sys.requests, c);
    SubsetCount({r1, r2}, CreditedBy(sys.requests, c));
  }

  /** A request due to compensate is the only holder of its challenge, unless it was reopened. */
  lemma CompensatorHoldsAlone(steps: seq<Step>, r: nat)
    requires var sys := Run(INIT, steps);
      At(sys, r, AtUnconsume) && TraceOf(sys, sys.requests[r].challengeId).reopened == 0
    ensures var sys := Run(INIT, steps); Holders(sys.requests, sys.requests[r].challengeId) == {r}
  {
    var sys := Run(INIT, steps);
    RunKeepsTokens(INIT, steps);
    assert BoundToUser(sys, r);
    var c := sys.requests[r].challengeId;
    var held := Holders(sys.requests, c);
    assert TokenBound(sys, c) && r in held;
    SubsetCount({r}, held);
    SameSize({r}, held);
  }

  /**
   * `unconsume` undoes exactly its own request's consumption, unless a verifier wrote to the
   * challenge meanwhile: the guarded update fires, and afterwards the challenge is solved,
   * unspent, held by nobody and free for the same user's retry.
   */
  lemma CompensationUndoesOwnConsumption(steps: seq<Step>, r: nat)
    requires var sys := Run(INIT, steps);
      At(sys, r, AtUnconsume) && TraceOf(sys, sys.requests[r].challengeId).clobbered == 0
    ensures
      var sys := Run(INIT, steps);
      var q := sys.requests[r];
      var sys' := Next(sys, Unconsume(r));
      && UnconsumeTx(sys.db, q.challengeId, q.user).1
      && Spendable(sys'.db, q.challengeId, q.user)
      && Holders(sys'.requests, q.challengeId) == {}
  {
    var sys := Run(INIT, steps);
    var q := sys.requests[r];
    RunKeepsTokens(INIT, steps);
    assert BoundToUser(sys, r);
    var held := Holders(sys.requests, q.challengeId);
    assert SingleOwner(sys, q.challengeId) && r in held;
    SubsetCount({r}, held);
    SameSize({r}, held);
    MoveHolders(sys.requests, r, q.(pc := Refused), q.challengeId);
  }

  lemma SameSize<T>(a: set<T>, b: set<T>)
    requires a <= b && |a| == |b|
    ensures a == b
  {
    assert b == a + (b - a);
  }

  /** A challenge solved by one user never backs another user's credit, whatever verifiers write. */
  lemma CreditBelongsToSolver(steps: seq<Step>, r: nat)
    requires r in Run(INIT, steps).requests && Run(INIT, steps).requests[r].credited
    ensures
      var sys := Run(INIT, steps);
      var q := sys.requests[r];
      q.challengeId in sys.db.challenges && sys.db.challenges[q.challengeId].user == Some(q.user)
  {
    RunKeepsTokens(INIT, steps);
    assert BoundToUser(Run(INIT, steps), r);
  }
}
