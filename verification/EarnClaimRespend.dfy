/**
 * The two ways a solved captcha is spent twice. ChallengeVerifier reads `issued` and writes
 * its verdict in two queries, and the write does not repeat the check; and a credit that
 * commits but is reported as an exception is compensated. Each occurrence costs one more
 * credit: the bound of `EarnClaimTokens.CreditsPerChallenge` is reached for all numbers. And
 * a write to a held challenge is enough to make a compensation miss, or undo another's hold.
 */
module EarnClaimRespend {
  import opened Common
  import opened Books
  import opened EarnClaim
  import EarnClaimTokens
  import Commission

  const CAPTCHA := "c"

  const FLAT := Commission.Rates(0, 0)

  function Key(i: nat): SessionKey { SessionKey(PtcView, i) }

  /**
   * After `i` claims on one challenge, all credited: it is spendable when `open`, and held by
   * the last request otherwise; verifiers `w..n` have read it and still have to write.
   */
  ghost predicate Stage(sys: System, i: nat, w: nat, n: nat, open: bool, t: Trace) {
    && 0 in sys.db.books.users && sys.db.books.users[0].referrer.None?
    && CAPTCHA in sys.db.challenges
    && sys.db.challenges[CAPTCHA] == Challenge(Some(0), if open then ChVerified else ChConsumed)
    && (forall v: nat :: w <= v <= n ==> v in sys.verifiers && sys.verifiers[v] == CAPTCHA)
    && (forall r :: r in sys.requests <==> 0 <= r < i)
    && (forall r :: r in sys.requests ==> sys.requests[r].challengeId == CAPTCHA && sys.requests[r].credited)
    && (!open ==> i > 0 && Holds(sys.requests[i - 1]))
    && (forall key :: key in sys.db.sessions ==> key.id < i)
    && (forall row :: row in sys.db.books.ledger ==> row.ref.SessionRef? && row.ref.key.id < i)
    && TraceOf(sys, CAPTCHA) == t
  }

  // ----- One claim -----

  /** A fresh session is claimed with the challenge, up to the credit. */
  function Approach(i: nat): seq<Step> {
    [StartSession(Key(i), 0, "t"), Arrive(i, Key(i), 0, "t", CAPTCHA, 1)] + [Consume(i), GatePass(i)]
  }

  function Approached(sys: System, i: nat): System
    requires CAPTCHA in sys.db.challenges
  {
    sys.(
      db := SetChallenge(sys.db, CAPTCHA, ChConsumed).(sessions := sys.db.sessions[Key(i) := Session(0, "t", Pending)]),
      requests := sys.requests[i := Request(Key(i), 0, CAPTCHA, 1, AtCredit, false)])
  }

  lemma ApproachRuns(sys: System, i: nat, w: nat, n: nat, t: Trace)
    requires Stage(sys, i, w, n, true, t)
    ensures Run(sys, Approach(i)) == Approached(sys, i)
  {
    var q := Request(Key(i), 0, CAPTCHA, 1, AtConsume, false);
    RunAppend(sys, [StartSession(Key(i), 0, "t"), Arrive(i, Key(i), 0, "t", CAPTCHA, 1)], [Consume(i), GatePass(i)]);
    RunTwo(sys, StartSession(Key(i), 0, "t"), Arrive(i, Key(i), 0, "t", CAPTCHA, 1));
    assert Key(i) !in sys.db.sessions;
    var s1 := Next(sys, StartSession(Key(i), 0, "t"));
    var s2 := Next(s1, Arrive(i, Key(i), 0, "t", CAPTCHA, 1));
    assert s2 == s1.(requests := sys.requests[i := q]);
    RunTwo(s2, Consume(i), GatePass(i));
    ConsumeAndPass(s2, i, q);
    assert Next(Next(s2, Consume(i)), GatePass(i)).requests == Approached(sys, i).requests;
  }

  lemma ConsumeAndPass(sys: System, i: nat, q: Request)
    requires i in sys.requests && sys.requests[i] == q == Request(Key(i), 0, CAPTCHA, 1, AtConsume, false)
    requires CAPTCHA in sys.db.challenges && sys.db.challenges[CAPTCHA] == Challenge(Some(0), ChVerified)
    ensures Next(Next(sys, Consume(i)), GatePass(i))
         == sys.(db := SetChallenge(sys.db, CAPTCHA, ChConsumed), requests := sys.requests[i := q.(pc := AtCredit)])
  {
    var s := Next(sys, Consume(i));
    assert s == Goto(sys.(db := SetChallenge(sys.db, CAPTCHA, ChConsumed)), i, AtGates);
    assert Next(s, GatePass(i)).requests == sys.requests[i := q.(pc := AtCredit)];
  }

  /** The credit of the approached claim commits. */
  lemma ApproachedCredits(sys: System, i: nat, w: nat, n: nat, t: Trace)
    requires Stage(sys, i, w, n, true, t)
    ensures
      var out := CreditTx(Approached(sys, i).db, Key(i), 0, 1, FLAT, false);
      && out.Committed?
      && out.db.challenges == sys.db.challenges[CAPTCHA := Challenge(Some(0), ChConsumed)]
      && out.db.sessions == sys.db.sessions[Key(i) := Session(0, "t", Verified)]
      && 0 in out.db.books.users && out.db.books.users[0].referrer.None?
      && out.db.books.ledger == sys.db.books.ledger + [LedgerRow(0, 1, Reward(PtcView), SessionRef(Key(i)))]
  {
    var ledger := sys.db.books.ledger;
    forall k | 0 <= k < |ledger| ensures ledger[k].ref != SessionRef(Key(i)) {
      assert ledger[k] in ledger;
    }
  }

  /** The claim is credited. */
  lemma PlainRound(sys: System, i: nat, w: nat, n: nat, t: Trace) returns (steps: seq<Step>)
    requires Stage(sys, i, w, n, true, t)
    ensures Stage(Run(sys, steps), i + 1, w, n, false, t)
  {
    steps := Approach(i) + [Credit(i, NoFault, FLAT)];
    RunAppend(sys, Approach(i), [Credit(i, NoFault, FLAT)]);
    ApproachRuns(sys, i, w, n, t);
    var s := Approached(sys, i);
    RunOne(s, Credit(i, NoFault, FLAT));
    ApproachedCredits(sys, i, w, n, t);
    CreditedStage(sys, Next(s, Credit(i, NoFault, FLAT)), i, w, n, false, t, t);
  }

  /** The claim is credited, told that it was not, and compensates. */
  lemma UnackedRound(sys: System, i: nat, w: nat, n: nat, t: Trace) returns (steps: seq<Step>)
    requires Stage(sys, i, w, n, true, t)
    ensures Stage(Run(sys, steps), i + 1, w, n, true, t.(unacked := t.unacked + 1))
  {
    steps := Approach(i) + [Credit(i, Unacked, FLAT), Unconsume(i)];
    RunAppend(sys, Approach(i), [Credit(i, Unacked, FLAT), Unconsume(i)]);
    ApproachRuns(sys, i, w, n, t);
    var s := Approached(sys, i);
    RunTwo(s, Credit(i, Unacked, FLAT), Unconsume(i));
    ApproachedCredits(sys, i, w, n, t);
    UnackedCreditReopens(s, i, t);
    CreditedStage(sys, Next(Next(s, Credit(i, Unacked, FLAT)), Unconsume(i)), i, w, n, true, t,
      t.(unacked := t.unacked + 1));
  }

  lemma UnackedCreditReopens(s: System, i: nat, t: Trace)
    requires i in s.requests && s.requests[i] == Request(Key(i), 0, CAPTCHA, 1, AtCredit, false)
    requires TraceOf(s, CAPTCHA) == t
    requires var out := CreditTx(s.db, Key(i), 0, 1, FLAT, false);
      && out.Committed? && CAPTCHA in out.db.challenges
      && out.db.challenges[CAPTCHA] == Challenge(Some(0), ChConsumed)
    ensures
      var out := CreditTx(s.db, Key(i), 0, 1, FLAT, false);
      var s' := Next(Next(s, Credit(i, Unacked, FLAT)), Unconsume(i));
      && s'.db == SetChallenge(out.db, CAPTCHA, ChVerified)
      && s'.requests == s.requests[i := Request(Key(i), 0, CAPTCHA, 1, Refused, true)]
      && s'.verifiers == s.verifiers && TraceOf(s', CAPTCHA) == t.(unacked := t.unacked + 1)
  {
  }

  /** The rows and the request left by a credited claim, put together. */
  lemma CreditedStage(sys: System, end: System, i: nat, w: nat, n: nat, open: bool, t: Trace, t': Trace)
    requires Stage(sys, i, w, n, true, t)
    requires 0 in end.db.books.users && end.db.books.users[0].referrer.None?
    requires end.db.challenges
      == sys.db.challenges[CAPTCHA := Challenge(Some(0), if open then ChVerified else ChConsumed)]
    requires end.db.sessions == sys.db.sessions[Key(i) := Session(0, "t", Verified)]
    requires end.db.books.ledger == sys.db.books.ledger + [LedgerRow(0, 1, Reward(PtcView), SessionRef(Key(i)))]
    requires end.requests == sys.requests[i := Request(Key(i), 0, CAPTCHA, 1, if open then Refused else Credited, true)]
    requires end.verifiers == sys.verifiers && TraceOf(end, CAPTCHA) == t'
    ensures Stage(end, i + 1, w, n, open, t')
  {
  }

  /** A verifier that read the issued challenge writes its pass over the consumption. */
  lemma Reopen(sys: System, i: nat, w: nat, n: nat, t: Trace)
    requires Stage(sys, i, w, n, false, t) && w <= n
    ensures Stage(Next(sys, VerifyWrite(w, Pass)), i, w + 1, n, true,
                  t.(clobbered := t.clobbered + 1, reopened := t.reopened + 1))
  {
    assert i - 1 in Holders(sys.requests, CAPTCHA);
  }

  /** Of verifiers 1 to `n`, the first `j` wrote late, each followed by one more claim; `m + 1` claims came before. */
  ghost predicate LateStage(sys: System, m: nat, n: nat, j: nat) {
    Stage(sys, m + 1 + j, j + 1, n, false, Trace(j, j, m))
  }

  /** A late verifier, and one more claim. */
  lemma LateRound(sys: System, m: nat, n: nat, j: nat) returns (steps: seq<Step>)
    requires LateStage(sys, m, n, j) && j < n
    ensures LateStage(Run(sys, steps), m, n, j + 1)
  {
    var write := VerifyWrite(j + 1, Pass);
    Reopen(sys, m + 1 + j, j + 1, n, Trace(j, j, m));
    RunOne(sys, write);
    var claim := PlainRound(Next(sys, write), m + 1 + j, j + 2, n, Trace(j + 1, j + 1, m));
    RunAppend(sys, [write], claim);
    steps := [write] + claim;
    LaterStage(Run(sys, steps), m + 1 + j + 1, j + 2, n, Trace(j + 1, j + 1, m), m, j + 1);
  }

  lemma LaterStage(sys: System, i: nat, w: nat, n: nat, t: Trace, m: nat, j: nat)
    requires Stage(sys, i, w, n, false, t) && i == m + 1 + j && w == j + 1 && t == Trace(j, j, m)
    ensures LateStage(sys, m, n, j)
  {
  }

  // ----- Many claims -----

  /** From this state of stage `j` some steps lead to the next stage. */
  ghost predicate Advances(stage: (System, nat) -> bool, s: System, j: nat) {
    exists steps :: stage(Run(s, steps), j + 1)
  }

  /** What advances stage by stage reaches every stage. */
  lemma {:induction false} Iterate(stage: (System, nat) -> bool, sys: System, k: nat) returns (steps: seq<Step>)
    requires stage(sys, 0)
    requires forall s, j: nat :: j < k && stage(s, j) ==> Advances(stage, s, j)
    ensures stage(Run(sys, steps), k)
    decreases k
  {
    if k == 0 {
      steps := [];
    } else {
      var front := Iterate(stage, sys, k - 1);
      assert Advances(stage, Run(sys, front), k - 1);
      var last :| stage(Run(Run(sys, front), last), k);
      RunAppend(sys, front, last);
      steps := front + last;
    }
  }

  lemma UnackedRounds(sys: System, m: nat, n: nat) returns (steps: seq<Step>)
    requires Stage(sys, 0, 1, n, true, Trace(0, 0, 0))
    ensures Stage(Run(sys, steps), m, 1, n, true, Trace(0, 0, m))
  {
    ghost var stage := (s: System, j: nat) => Stage(s, j, 1, n, true, Trace(0, 0, j));
    forall s, j: nat | j < m && stage(s, j) ensures Advances(stage, s, j) {
      var last := UnackedRound(s, j, 1, n, Trace(0, 0, j));
      assert stage(Run(s, last), j + 1);
    }
    steps := Iterate(stage, sys, m);
  }

  lemma ReopenRounds(sys: System, k: nat, m: nat, n: nat) returns (steps: seq<Step>)
    requires LateStage(sys, m, n, 0) && k <= n
    ensures LateStage(Run(sys, steps), m, n, k)
  {
    ghost var stage := (s: System, j: nat) => LateStage(s, m, n, j);
    forall s, j: nat | j < k && stage(s, j) ensures Advances(stage, s, j) {
      var last := LateRound(s, m, n, j);
      assert stage(Run(s, last), j + 1);
    }
    steps := Iterate(stage, sys, k);
  }

  /** All verifiers read while the challenge is still `issued`. */
  function Reads(n: nat): seq<Step> {
    if n == 0 then [] else Reads(n - 1) + [VerifyRead(n - 1, CAPTCHA)]
  }

  const SETUP := [Register(0, None), IssueChallenge(CAPTCHA, Some(0))]

  lemma {:induction false} ReadsPrepare(n: nat)
    ensures var sys := Run(INIT, SETUP + Reads(n));
      && sys.db == Db(map[], map[CAPTCHA := Challenge(Some(0), ChIssued)], map[],
        Book(map[0 := User(0, 0, 0, None)], []))
      && (forall v: nat :: v in sys.verifiers <==> v < n)
      && (forall v: nat :: v < n ==> sys.verifiers[v] == CAPTCHA)
      && sys.requests == map[] && sys.traces == map[]
  {
    if n == 0 {
      RunTwo(INIT, Register(0, None), IssueChallenge(CAPTCHA, Some(0)));
      assert SETUP + Reads(0) == SETUP;
    } else {
      ReadsPrepare(n - 1);
      assert SETUP + Reads(n) == (SETUP + Reads(n - 1)) + [VerifyRead(n - 1, CAPTCHA)];
      RunAppend(INIT, SETUP + Reads(n - 1), [VerifyRead(n - 1, CAPTCHA)]);
      RunOne(Run(INIT, SETUP + Reads(n - 1)), VerifyRead(n - 1, CAPTCHA));
    }
  }

  /** The first verifier of `n + 1` solves the challenge. */
  lemma Prologue(n: nat) returns (steps: seq<Step>)
    ensures Stage(Run(INIT, steps), 0, 1, n, true, Trace(0, 0, 0))
  {
    ReadsPrepare(n + 1);
    RunAppend(INIT, SETUP + Reads(n + 1), [VerifyWrite(0, Pass)]);
    var sys := Run(INIT, SETUP + Reads(n + 1));
    RunOne(sys, VerifyWrite(0, Pass));
    assert Holders(sys.requests, CAPTCHA) == {};
    steps := SETUP + Reads(n + 1) + [VerifyWrite(0, Pass)];
  }

  /** The run has `n` reopenings and `m` unacknowledged credits of one challenge, and `1 + n + m` credits. */
  ghost predicate Respends(steps: seq<Step>, n: nat, m: nat) {
    var sys := Run(INIT, steps);
    TraceOf(sys, CAPTCHA) == Trace(n, n, m) && |EarnClaimTokens.CreditedBy(sys.requests, CAPTCHA)| == 1 + n + m
  }

  /** The bound is reached: for all `n` and `m` there is such a run. */
  lemma BoundIsReached(n: nat, m: nat)
    ensures exists steps :: Respends(steps, n, m)
  {
    var a := PlainPart(n, m);
    var b := ReopenRounds(Run(INIT, a), n, m, n);
    RunAppend(INIT, a, b);
    AllCredited(Run(INIT, a + b), m, n);
    assert Respends(a + b, n, m);
  }

  lemma AllCredited(sys: System, m: nat, n: nat)
    requires LateStage(sys, m, n, n)
    ensures |EarnClaimTokens.CreditedBy(sys.requests, CAPTCHA)| == 1 + n + m
  {
    assert EarnClaimTokens.CreditedBy(sys.requests, CAPTCHA) == Below(m + n + 1);
  }

  lemma PlainPart(n: nat, m: nat) returns (steps: seq<Step>)
    ensures LateStage(Run(INIT, steps), m, n, 0)
  {
    var a := UnackedPart(n, m);
    var b := PlainRound(Run(INIT, a), m, 1, n, Trace(0, 0, m));
    RunAppend(INIT, a, b);
    steps := a + b;
    LaterStage(Run(INIT, steps), m + 1, 1, n, Trace(0, 0, m), m, 0);
  }

  lemma UnackedPart(n: nat, m: nat) returns (steps: seq<Step>)
    ensures Stage(Run(INIT, steps), m, 1, n, true, Trace(0, 0, m))
  {
    var a := Prologue(n);
    var b := UnackedRounds(Run(INIT, a), m, n);
    RunAppend(INIT, a, b);
    steps := a + b;
  }

  // ----- Compensations that miss -----

  /** Request 0 has consumed the challenge, and its credit has failed; verifier 1 has not written yet. */
  ghost predicate Due(sys: System) {
    && At(sys, 0, AtUnconsume) && sys.requests.Keys == {0}
    && sys.requests[0].challengeId == CAPTCHA && sys.requests[0].user == 0
    && CAPTCHA in sys.db.challenges && sys.db.challenges[CAPTCHA] == Challenge(Some(0), ChConsumed)
    && 1 in sys.verifiers && sys.verifiers[1] == CAPTCHA
    && 0 in sys.db.books.users && Key(1) !in sys.db.sessions
    && TraceOf(sys, CAPTCHA) == Trace(0, 0, 0)
  }

  lemma DueHappens() returns (steps: seq<Step>)
    ensures Due(Run(INIT, steps))
  {
    var a := Prologue(1);
    var sys := Run(INIT, a);
    RunAppend(INIT, a, Approach(0));
    ApproachRuns(sys, 0, 1, 1, Trace(0, 0, 0));
    RunAppend(INIT, a + Approach(0), [Credit(0, Fails, FLAT)]);
    RunOne(Approached(sys, 0), Credit(0, Fails, FLAT));
    steps := a + Approach(0) + [Credit(0, Fails, FLAT)];
    FailedCredit(Approached(sys, 0));
  }

  lemma FailedCredit(sys: System)
    requires At(sys, 0, AtCredit)
    ensures Next(sys, Credit(0, Fails, FLAT)) == Goto(sys, 0, AtUnconsume)
  {
  }

  /** The request is due to compensate, and its challenge was reopened at most `n` times. */
  predicate DueReopened(sys: System, r: nat, n: nat) {
    At(sys, r, AtUnconsume) && TraceOf(sys, sys.requests[r].challengeId).reopened <= n
  }

  predicate HoldsAlone(sys: System, r: nat)
    requires r in sys.requests
  {
    Holders(sys.requests, sys.requests[r].challengeId) == {r}
  }

  /** Requests 0 and 1 hold one challenge, and 0 is due to compensate. */
  ghost predicate SharedHold(sys: System) {
    && DueReopened(sys, 0, 1) && At(sys, 1, AtGates)
    && sys.requests[0].challengeId == CAPTCHA && sys.requests[1].challengeId == CAPTCHA
    && UnconsumeTx(sys.db, CAPTCHA, sys.requests[0].user).1
  }

  /** A late pass has reopened the challenge, and the user has another session. */
  ghost predicate Reopened(sys: System) {
    && DueReopened(sys, 0, 1) && sys.requests.Keys == {0}
    && sys.requests[0].challengeId == CAPTCHA && sys.requests[0].user == 0
    && CAPTCHA in sys.db.challenges && sys.db.challenges[CAPTCHA] == Challenge(Some(0), ChVerified)
    && 0 in sys.db.books.users
    && Key(1) in sys.db.sessions && sys.db.sessions[Key(1)] == Session(0, "t", Pending)
  }

  lemma LatePassReopens(sys: System) returns (steps: seq<Step>)
    requires Due(sys)
    ensures Reopened(Run(sys, steps))
  {
    assert 0 in Holders(sys.requests, CAPTCHA);
    steps := [VerifyWrite(1, Pass), StartSession(Key(1), 0, "t")];
    RunTwo(sys, VerifyWrite(1, Pass), StartSession(Key(1), 0, "t"));
  }

  /** Another request of the user consumes the challenge too. */
  lemma SecondConsumes(sys: System) returns (steps: seq<Step>)
    requires Reopened(sys)
    ensures SharedHold(Run(sys, steps))
  {
    var arrive := Arrive(1, Key(1), 0, "t", CAPTCHA, 1);
    steps := [arrive, Consume(1)];
    RunTwo(sys, arrive, Consume(1));
    assert Next(sys, arrive).requests == sys.requests[1 := Request(Key(1), 0, CAPTCHA, 1, AtConsume, false)];
  }

  /**
   * Requests due to compensate hold their challenges alone in all runs with at most `n`
   * reopenings exactly when `n` is zero.
   */
  lemma HoldsAloneIffNeverReopened(n: nat)
    ensures (forall steps, r :: DueReopened(Run(INIT, steps), r, n) ==> HoldsAlone(Run(INIT, steps), r)) <==> n == 0
  {
    if n == 0 {
      forall steps, r | DueReopened(Run(INIT, steps), r, n) ensures HoldsAlone(Run(INIT, steps), r) {
        EarnClaimTokens.CompensatorHoldsAlone(steps, r);
      }
    } else {
      var a := DueHappens();
      var b := LatePassReopens(Run(INIT, a));
      RunAppend(INIT, a, b);
      var c := SecondConsumes(Run(INIT, a + b));
      RunAppend(INIT, a + b, c);
      var sys := Run(INIT, a + b + c);
      assert DueReopened(sys, 0, n);
      assert 1 in Holders(sys.requests, CAPTCHA);
      assert !HoldsAlone(sys, 0);
    }
  }

  /** The request is due to compensate, and held challenges of its were written to at most `n` times. */
  predicate DueClobbered(sys: System, r: nat, n: nat) {
    At(sys, r, AtUnconsume) && TraceOf(sys, sys.requests[r].challengeId).clobbered <= n
  }

  predicate Compensates(sys: System, r: nat)
    requires r in sys.requests
  {
    UnconsumeTx(sys.db, sys.requests[r].challengeId, sys.requests[r].user).1
  }

  /**
   * Compensations take effect in all runs with at most `n` verifier writes to a held
   * challenge exactly when `n` is zero.
   */
  lemma CompensatesIffNeverClobbered(n: nat)
    ensures (forall steps, r :: DueClobbered(Run(INIT, steps), r, n) ==> Compensates(Run(INIT, steps), r)) <==> n == 0
  {
    if n == 0 {
      forall steps, r | DueClobbered(Run(INIT, steps), r, n) ensures Compensates(Run(INIT, steps), r) {
        EarnClaimTokens.CompensationUndoesOwnConsumption(steps, r);
      }
    } else {
      var a := DueHappens();
      LateRefusalMisses(Run(INIT, a));
      RunAppend(INIT, a, [VerifyWrite(1, Refuse)]);
      RunOne(Run(INIT, a), VerifyWrite(1, Refuse));
      var sys := Run(INIT, a + [VerifyWrite(1, Refuse)]);
      assert DueClobbered(sys, 0, n) && !Compensates(sys, 0);
    }
  }

  lemma LateRefusalMisses(sys: System)
    requires Due(sys)
    ensures var sys' := Next(sys, VerifyWrite(1, Refuse)); DueClobbered(sys', 0, 1) && !Compensates(sys', 0)
  {
    assert 0 in Holders(sys.requests, CAPTCHA);
  }

  /** The first `n` request ids. */
  ghost function Below(n: nat): (ids: set<nat>)
    ensures |ids| == n
    ensures forall r: nat :: r in ids <==> r < n
  {
    if n == 0 then {} else Below(n - 1) + {n - 1}
  }
}
