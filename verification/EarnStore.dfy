/**
 * The claim pipeline as the services run it: rows updated in place, one method per
 * transaction. Every method is tied to the transaction functions of `EarnClaim`.
 */
module EarnStore {
  import opened Common
  import opened Books
  import opened EarnClaim
  import EarnClaimLedger
  import Commission

  /** What `claim` reports: an error code, the credited reward, or the exception it rethrows. */
  datatype Outcome = RejectedWith(code: string) | Paid(reward: int) | Rethrown

  /** What one `/complete` request brings: its input, and the surface's own settings. */
  datatype Claim = Claim(
    key: SessionKey,
    user: nat,
    providedToken: string,
    challengeId: string,
    notPendingError: string,
    reward: int,
    preClaim: Option<string>,  // the surface's extra gate: a rejection reason, if any
    elapsed: nat,              // seconds since the session started
    minElapsed: int)

  /** The gate that refuses the row, in the order the service tries them. */
  function GateReason(claim: Claim): Option<string> {
    if claim.preClaim.Some? then claim.preClaim
    else if claim.elapsed < claim.minElapsed then Some("too_fast")
    else None
  }

  /** A whole `claim` with no other process running: the final rows and the reported outcome. */
  function ClaimAlone(db: Db, snapshot: Session, claim: Claim, rates: Commission.Rates, fault: Fault): (Db, Outcome) {
    if snapshot.status != Pending then (db, RejectedWith(claim.notPendingError))
    else if snapshot.token != claim.providedToken then (db, RejectedWith("token_mismatch"))
    else
      var (spent, ok) := ConsumeTx(db, claim.challengeId, claim.user);
      if !ok then (spent, RejectedWith("captcha_required"))
      else if GateReason(claim).Some? then
        (RejectRowTx(spent, claim.key), RejectedWith(GateReason(claim).value))
      else
        match CreditTx(spent, claim.key, claim.user, claim.reward, rates, fault.Fails?)
        case Committed(paid) =>
          if fault.Unacked? then (UnconsumeTx(paid, claim.challengeId, claim.user).0, Rethrown)
          else (paid, Paid(claim.reward))
        case NotPending => (UnconsumeTx(spent, claim.challengeId, claim.user).0, RejectedWith(claim.notPendingError))
        case Threw => (UnconsumeTx(spent, claim.challengeId, claim.user).0, Rethrown)
  }

  // ----- What a claim must bring, and what it hears otherwise -----

  /** The captcha the claim names was solved, and by the claim's own user. */
  predicate Solved(db: Db, claim: Claim) {
    && claim.challengeId != "" && claim.challengeId in db.challenges
    && db.challenges[claim.challengeId].status == ChVerified
    && db.challenges[claim.challengeId].user == Some(claim.user)
  }

  /** Everything that stands between a claim and its reward. */
  predicate Deserves(db: Db, snapshot: Session, claim: Claim) {
    && snapshot.status == Pending && snapshot.token == claim.providedToken && Solved(db, claim)
    && claim.preClaim.None? && claim.elapsed >= claim.minElapsed
  }

  /** The session is still open when the credit comes to claim it. */
  predicate StillOpen(db: Db, claim: Claim) {
    claim.key in db.sessions && db.sessions[claim.key].status == Pending
  }

  /** A gate refused: the session is rejected, the captcha stays spent, nothing is paid. */
  predicate GateRejects(db: Db, db': Db, claim: Claim) {
    && db'.books == db.books && db'.lifetime == db.lifetime
    && db'.challenges == db.challenges[claim.challengeId := Challenge(Some(claim.user), ChConsumed)]
    && db'.sessions.Keys == db.sessions.Keys
    && (claim.key in db.sessions ==> db'.sessions[claim.key] == db.sessions[claim.key].(status := Rejected))
    && (forall key :: key in db.sessions && key != claim.key ==> db'.sessions[key] == db.sessions[key])
  }

  /** Which refusal each shortcoming meets, the first one counting, and what it leaves behind. */
  predicate Refuses(db: Db, db': Db, snapshot: Session, claim: Claim, outcome: Outcome) {
    var open := snapshot.status == Pending;
    var admitted := open && snapshot.token == claim.providedToken;
    var solved := admitted && Solved(db, claim);
    && (!open ==> outcome == RejectedWith(claim.notPendingError) && db' == db)
    && (open && !admitted ==> outcome == RejectedWith("token_mismatch") && db' == db)
    && (admitted && !solved ==> outcome == RejectedWith("captcha_required") && db' == db)
    && (solved && claim.preClaim.Some? ==>
          outcome == RejectedWith(claim.preClaim.value) && GateRejects(db, db', claim))
    && (solved && claim.preClaim.None? && claim.elapsed < claim.minElapsed ==>
          outcome == RejectedWith("too_fast") && GateRejects(db, db', claim))
  }

  /** A payment: session verified, captcha spent, the reward and the commission on the ledger. */
  ghost predicate Pays(db: Db, db': Db, claim: Claim, rates: Commission.Rates) {
    && claim.user in db.books.users && StillOpen(db, claim)
    && db'.challenges == db.challenges[claim.challengeId := Challenge(Some(claim.user), ChConsumed)]
    && db'.sessions == db.sessions[claim.key := db.sessions[claim.key].(status := Verified)]
    && var (referrer, commission) := (db.books.users[claim.user].referrer, Commission.Of(claim.reward, rates));
    && db'.books.ledger == db.books.ledger
         + [LedgerRow(claim.user, claim.reward, Reward(claim.key.surface), SessionRef(claim.key))]
         + (if referrer.Some? && commission > 0
            then [LedgerRow(referrer.value, commission, ReferralCommission, SessionRef(claim.key))] else [])
  }

  /**
   * A claim is paid only if it deserves it; from a consistent database it is paid exactly
   * when it deserves it, its session is still open, and nothing fails.
   */
  lemma PaidIffDeserved(db: Db, snapshot: Session, claim: Claim, rates: Commission.Rates, fault: Fault)
    ensures
      var (db', outcome) := ClaimAlone(db, snapshot, claim, rates, fault);
      && (outcome.Paid? ==>
            && Deserves(db, snapshot, claim) && StillOpen(db, claim) && fault.NoFault?
            && outcome.reward == claim.reward && Pays(db, db', claim, rates))
      && (EarnClaimLedger.DbInv(db) && claim.user in db.books.users ==>
            (outcome.Paid? <==> Deserves(db, snapshot, claim) && StillOpen(db, claim) && fault.NoFault?))
  {
    var spent := ConsumeTx(db, claim.challengeId, claim.user).0;
    if Deserves(db, snapshot, claim) {
      if CreditTx(spent, claim.key, claim.user, claim.reward, rates, fault.Fails?).Committed? {
        EarnClaimLedger.CommittedCredit(spent, claim.key, claim.user, claim.reward, rates, fault.Fails?);
        CreditKeepsChallenges(spent, claim, rates, fault.Fails?);
      }
      if EarnClaimLedger.DbInv(db) && claim.user in db.books.users {
        SpendingKeepsInv(db, claim);
        EarnClaimLedger.IndexNeverFires(spent, claim.key, claim.user, claim.reward, rates);
      }
    }
  }

  lemma CreditKeepsChallenges(db: Db, claim: Claim, rates: Commission.Rates, fails: bool)
    ensures
      var out := CreditTx(db, claim.key, claim.user, claim.reward, rates, fails);
      out.Committed? ==> out.db.challenges == db.challenges
  {
  }

  lemma SpendingKeepsInv(db: Db, claim: Claim)
    requires EarnClaimLedger.DbInv(db)
    ensures EarnClaimLedger.DbInv(ConsumeTx(db, claim.challengeId, claim.user).0)
  {
    var spent := ConsumeTx(db, claim.challengeId, claim.user).0;
    forall row | row in spent.books.ledger ensures EarnClaimLedger.RowSettled(spent, row) {
      assert EarnClaimLedger.RowSettled(db, row);
    }
  }

  /** A claim that does not deserve its reward hears why, and leaves what that refusal leaves. */
  lemma RefusalsAreExplained(db: Db, snapshot: Session, claim: Claim, rates: Commission.Rates, fault: Fault)
    ensures
      var (db', outcome) := ClaimAlone(db, snapshot, claim, rates, fault);
      && Refuses(db, db', snapshot, claim, outcome)
      && (Deserves(db, snapshot, claim) && fault.Fails? ==> outcome == Rethrown && db' == db)
      && (Deserves(db, snapshot, claim) && !fault.Fails? && !StillOpen(db, claim) ==>
            outcome == RejectedWith(claim.notPendingError) && db' == db)
  {
    var spent := ConsumeTx(db, claim.challengeId, claim.user).0;
    if Deserves(db, snapshot, claim) {
      assert UnconsumeTx(spent, claim.challengeId, claim.user).0.challenges == db.challenges;
    }
  }

  class Store {
    var sessions: map<SessionKey, Session>
    var challenges: map<string, Challenge>
    var users: map<nat, User>
    var lifetime: map<nat, int>
    var ledger: seq<LedgerRow>

    /** The committed rows as one value. */
    function Rows(): Db
      reads this
    {
      Db(sessions, challenges, lifetime, Book(users, ledger))
    }

    constructor ()
      ensures Rows() == EMPTY_DB
    {
      sessions, challenges, users, lifetime, ledger := map[], map[], map[], map[], [];
    }

    /** CaptchaConsumer::consume; a missing id or user is refused before any query. */
    method Consume(challengeId: Option<string>, user: Option<nat>) returns (consumed: bool)
      modifies this`challenges
      ensures challengeId.Some? && user.Some? ==>
        (Rows(), consumed) == ConsumeTx(old(Rows()), challengeId.value, user.value)
      ensures challengeId.None? || user.None? ==> !consumed && Rows() == old(Rows())
    {
      if challengeId.None? || challengeId.value == "" {
        return false;
      }
      var id := challengeId.value;
      if id !in challenges {
        return false;
      }
      var row := challenges[id];
      if row.status != ChVerified {
        return false;
      }
      if user.None? || row.user.None? || row.user.value != user.value {
        return false;
      }
      challenges := challenges[id := row.(status := ChConsumed)];
      return true;
    }

    /** CaptchaConsumer::unconsume: one guarded update. */
    method Unconsume(challengeId: Option<string>, user: Option<nat>) returns (reverted: bool)
      modifies this`challenges
      ensures challengeId.Some? && user.Some? ==>
        (Rows(), reverted) == UnconsumeTx(old(Rows()), challengeId.value, user.value)
      ensures challengeId.None? || user.None? ==> !reverted && Rows() == old(Rows())
    {
      if challengeId.None? || challengeId.value == "" || user.None? {
        return false;
      }
      var id := challengeId.value;
      if id in challenges && challenges[id].status == ChConsumed && challenges[id].user == user {
        challenges := challenges[id := challenges[id].(status := ChVerified)];
        return true;
      }
      return false;
    }

    /** EarnSessionClaimService::rejectRow. */
    method RejectRow(key: SessionKey)
      modifies this`sessions
      ensures Rows() == RejectRowTx(old(Rows()), key)
    {
      if key in sessions {
        sessions := sessions[key := sessions[key].(status := Rejected)];
      }
    }

    /** A ledger insert and the two counters; nothing is written when a constraint refuses it. */
    method WriteCredit(user: nat, delta: int, reason: Reason, ref: Ref) returns (ok: bool)
      requires AreaOf(reason) == Earning
      modifies this`users, this`ledger
      ensures ok == Post(old(Rows().books), user, delta, reason, ref).Some?
      ensures Rows() == old(Rows()).(books := PostOrKeep(old(Rows().books), user, delta, reason, ref))
    {
      if user !in users || !IndexFree(ledger, reason, ref) {
        return false;
      }
      ledger := ledger + [LedgerRow(user, delta, reason, ref)];
      var row := users[user];
      users := users[user := row.(balance := row.balance + delta, totalEarned := row.totalEarned + delta)];
      return true;
    }

    /** ReferralPayout::settle. */
    method Settle(user: nat, reward: int, key: SessionKey, rates: Commission.Rates) returns (ok: bool)
      requires user in users
      modifies this`users, this`lifetime, this`ledger
      ensures ok == SettleTx(old(Rows()), user, reward, key, rates).Some?
      ensures Rows() == if ok then SettleTx(old(Rows()), user, reward, key, rates).value else old(Rows())
    {
      var referrer := users[user].referrer;
      var commission := Commission.Of(reward, rates);
      if referrer.None? || commission == 0 {
        return true;
      }
      ok := WriteCredit(referrer.value, commission, ReferralCommission, SessionRef(key));
      if ok && user in lifetime {
        lifetime := lifetime[user := lifetime[user] + commission];
      }
    }

    /**
     * The credit transaction: when it rolls back every row is put back as it was; when its
     * commit is not acknowledged, it throws with the rows changed.
     */
    method CreditTransaction(claim: Claim, rates: Commission.Rates, fault: Fault) returns (credited: bool, threw: bool)
      modifies this
      ensures
        var out := CreditTx(old(Rows()), claim.key, claim.user, claim.reward, rates, fault.Fails?);
        && credited == (out.Committed? && !fault.Unacked?)
        && threw == (out.Threw? || (out.Committed? && fault.Unacked?))
        && Rows() == if out.Committed? then out.db else old(Rows())
    {
      var sessions0, users0, lifetime0, ledger0 := sessions, users, lifetime, ledger;
      var committed := false;
      threw := fault.Fails?;
      if claim.key in sessions && sessions[claim.key].status == Pending {
        sessions := sessions[claim.key := sessions[claim.key].(status := Verified)];
        var ok := WriteCredit(claim.user, claim.reward, Reward(claim.key.surface), SessionRef(claim.key));
        if ok {
          ok := Settle(claim.user, claim.reward, claim.key, rates);
        }
        committed, threw := ok && !fault.Fails?, !ok || fault.Fails?;
      }
      if threw {
        sessions, users, lifetime, ledger := sessions0, users0, lifetime0, ledger0;
      }
      credited, threw := committed && !fault.Unacked?, threw || (committed && fault.Unacked?);
    }

    /** EarnSessionClaimService::claim, with the session row as the controller loaded it. */
    method Run(snapshot: Session, claim: Claim, rates: Commission.Rates, fault: Fault) returns (outcome: Outcome)
      modifies this
      ensures (Rows(), outcome) == ClaimAlone(old(Rows()), snapshot, claim, rates, fault)
      ensures outcome.Paid? ==> Deserves(old(Rows()), snapshot, claim) && Pays(old(Rows()), Rows(), claim, rates)
      ensures Refuses(old(Rows()), Rows(), snapshot, claim, outcome)
    {
      PaidIffDeserved(Rows(), snapshot, claim, rates, fault);
      RefusalsAreExplained(Rows(), snapshot, claim, rates, fault);
      if snapshot.status != Pending {
        return RejectedWith(claim.notPendingError);
      }
      if snapshot.token != claim.providedToken {
        return RejectedWith("token_mismatch");
      }
      var ok := Consume(Some(claim.challengeId), Some(claim.user));
      if !ok {
        return RejectedWith("captcha_required");
      }
      if claim.preClaim.Some? {
        RejectRow(claim.key);
        return RejectedWith(claim.preClaim.value);
      }
      if claim.elapsed < claim.minElapsed {
        RejectRow(claim.key);
        return RejectedWith("too_fast");
      }
      var credited, threw := CreditTransaction(claim, rates, fault);
      if threw {
        var _ := Unconsume(Some(claim.challengeId), Some(claim.user));
        return Rethrown;
      }
      if !credited {
        var _ := Unconsume(Some(claim.challengeId), Some(claim.user));
        return RejectedWith(claim.notPendingError);
      }
      return Paid(claim.reward);
    }
  }

  /** The protocol steps of one claim, with nothing in between. */
  function ClaimSteps(r: nat, claim: Claim, rates: Commission.Rates, fault: Fault): seq<Step> {
    [ Arrive(r, claim.key, claim.user, claim.providedToken, claim.challengeId, claim.reward),
      Consume(r),
      if GateReason(claim).Some? then GateReject(r) else GatePass(r),
      Credit(r, fault, rates),
      Unconsume(r) ]
  }

  /** The last two steps of a claim whose gates passed. */
  lemma CreditAndCompensate(sys: System, r: nat, rates: Commission.Rates, fault: Fault)
    requires At(sys, r, AtCredit) && !sys.requests[r].credited
    ensures
      var q := sys.requests[r];
      var sys' := Next(Next(sys, Credit(r, fault, rates)), Unconsume(r));
      var out := CreditTx(sys.db, q.key, q.user, q.reward, rates, fault.Fails?);
      var kept := if out.Committed? then out.db else sys.db;
      if out.Committed? && !fault.Unacked? then sys'.db == kept && At(sys', r, Credited)
      else sys'.db == UnconsumeTx(kept, q.challengeId, q.user).0 && At(sys', r, Refused)
  {
  }

  /** A request that has ended ignores the rest of its steps. */
  lemma EndedStaysEnded(sys: System, r: nat, rates: Commission.Rates, fault: Fault)
    requires At(sys, r, Refused) || At(sys, r, Burned)
    ensures Next(Next(sys, Credit(r, fault, rates)), Unconsume(r)) == sys
  {
    assert Next(sys, Credit(r, fault, rates)) == sys;
  }

  /** The first two steps: the cheap checks, then the captcha. */
  lemma ArriveAndConsume(sys: System, r: nat, claim: Claim)
    requires r !in sys.requests && claim.user in sys.db.books.users
    requires claim.key in sys.db.sessions && sys.db.sessions[claim.key].user == claim.user
    ensures
      var session := sys.db.sessions[claim.key];
      var admitted := session.status == Pending && session.token == claim.providedToken;
      var (spent, ok) := ConsumeTx(sys.db, claim.challengeId, claim.user);
      var sys' := Next(Next(sys,
        Arrive(r, claim.key, claim.user, claim.providedToken, claim.challengeId, claim.reward)), Consume(r));
      && sys'.db == (if admitted then spent else sys.db)
      && r in sys'.requests
      && sys'.requests[r] == Request(claim.key, claim.user, claim.challengeId, claim.reward,
                                     if admitted && ok then AtGates else Refused, false)
  {
    var session := sys.db.sessions[claim.key];
    var admitted := session.status == Pending && session.token == claim.providedToken;
    var q := Request(claim.key, claim.user, claim.challengeId, claim.reward,
      if admitted then AtConsume else Refused, false);
    assert Next(sys, Arrive(r, claim.key, claim.user, claim.providedToken, claim.challengeId, claim.reward))
        == sys.(requests := sys.requests[r := q]);
  }

  /** The remaining three steps, from a request whose captcha has been tried. */
  lemma GateAndCredit(sys: System, r: nat, claim: Claim, rates: Commission.Rates, fault: Fault)
    requires r in sys.requests
    requires sys.requests[r].(pc := AtGates)
      == Request(claim.key, claim.user, claim.challengeId, claim.reward, AtGates, false)
    requires sys.requests[r].pc in {AtGates, Refused}
    ensures
      var gate := if GateReason(claim).Some? then GateReject(r) else GatePass(r);
      var sys' := Next(Next(Next(sys, gate), Credit(r, fault, rates)), Unconsume(r));
      var out := CreditTx(sys.db, claim.key, claim.user, claim.reward, rates, fault.Fails?);
      var kept := if out.Committed? then out.db else sys.db;
      if sys.requests[r].pc == Refused then sys'.db == sys.db && At(sys', r, Refused)
      else if GateReason(claim).Some? then sys'.db == RejectRowTx(sys.db, claim.key) && At(sys', r, Burned)
      else if out.Committed? && !fault.Unacked? then sys'.db == kept && At(sys', r, Credited)
      else sys'.db == UnconsumeTx(kept, claim.challengeId, claim.user).0 && At(sys', r, Refused)
  {
    var gate := if GateReason(claim).Some? then GateReject(r) else GatePass(r);
    var mid := Next(sys, gate);
    if sys.requests[r].pc == Refused {
      assert mid == sys;
      EndedStaysEnded(mid, r, rates, fault);
    } else if GateReason(claim).Some? {
      assert mid == Goto(sys.(db := RejectRowTx(sys.db, claim.key)), r, Burned);
      EndedStaysEnded(mid, r, rates, fault);
    } else {
      assert mid == Goto(sys, r, AtCredit);
      CreditAndCompensate(mid, r, rates, fault);
    }
  }

  lemma RunClaimSteps(sys: System, r: nat, claim: Claim, rates: Commission.Rates, fault: Fault)
    ensures
      var s := ClaimSteps(r, claim, rates, fault);
      Run(sys, s) == Next(Next(Next(Next(Next(sys, s[0]), s[1]), s[2]), s[3]), s[4])
  {
    var s := ClaimSteps(r, claim, rates, fault);
    assert s == [s[0], s[1]] + ([s[2]] + [s[3], s[4]]);
    RunAppend(sys, [s[0], s[1]], [s[2]] + [s[3], s[4]]);
    RunTwo(sys, s[0], s[1]);
    var s2 := Next(Next(sys, s[0]), s[1]);
    RunAppend(s2, [s[2]], [s[3], s[4]]);
    RunOne(s2, s[2]);
    RunTwo(Next(s2, s[2]), s[3], s[4]);
  }

  /**
   * The in-place `claim` is one run of the interleaved protocol, so everything proved about
   * runs holds of it; it reports a payment exactly when its request ends credited, and
   * without interference no request is left half way.
   */
  lemma ClaimIsRun(sys: System, r: nat, claim: Claim, rates: Commission.Rates, fault: Fault)
    requires r !in sys.requests && claim.user in sys.db.books.users
    requires claim.key in sys.db.sessions && sys.db.sessions[claim.key].user == claim.user
    ensures
      var (db', outcome) := ClaimAlone(sys.db, sys.db.sessions[claim.key], claim, rates, fault);
      var sys' := Run(sys, ClaimSteps(r, claim, rates, fault));
      && sys'.db == db'
      && (outcome.Paid? <==> At(sys', r, Credited))
      && (At(sys', r, Credited) || At(sys', r, Burned) || At(sys', r, Refused))
  {
    RunClaimSteps(sys, r, claim, rates, fault);
    ArriveAndConsume(sys, r, claim);
    var s := ClaimSteps(r, claim, rates, fault);
    GateAndCredit(Next(Next(sys, s[0]), s[1]), r, claim, rates, fault);
  }

  /** A claim that fails to credit, other than at a gate, leaves every row as it found it. */
  lemma FailedClaimLeavesNoTrace(db: Db, snapshot: Session, claim: Claim, rates: Commission.Rates, fault: Fault)
    requires !ClaimAlone(db, snapshot, claim, rates, fault).1.Paid? && !fault.Unacked?
    requires claim.preClaim.None? && claim.elapsed >= claim.minElapsed
    ensures ClaimAlone(db, snapshot, claim, rates, fault).0 == db
  {
    var (spent, ok) := ConsumeTx(db, claim.challengeId, claim.user);
    if ok {
      assert UnconsumeTx(spent, claim.challengeId, claim.user).0.challenges == db.challenges;
    }
  }
}
