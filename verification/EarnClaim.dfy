/**
 * The earn-claim protocol of app/Services/EarnSessionClaimService.php,
 * app/Captcha/CaptchaConsumer.php and app/Services/ReferralPayout.php.
 *
 * A database value `Db` holds the committed rows. Each database transaction is one
 * function on it. `System` adds what the running processes remember between their
 * transactions, and `Next` interleaves the transactions of any number of requests with
 * each other and with the transactions of payouts and ads on the same users and ledger.
 */
module EarnClaim {
  import opened Common
  import opened Books
  import Commission

  datatype SessionStatus = Pending | Verified | Rejected

  datatype Session = Session(user: nat, token: string, status: SessionStatus)

  datatype ChallengeStatus = ChIssued | ChVerified | ChConsumed | ChRejected | ChExpired

  datatype Challenge = Challenge(user: Option<nat>, status: ChallengeStatus)

  /** `lifetime` is the `lifetime_commission_sat` of the referral row of each referred user. */
  datatype Db = Db(
    sessions: map<SessionKey, Session>,
    challenges: map<string, Challenge>,
    lifetime: map<nat, int>,
    books: Book)

  // ----- Transactions -----

  /** True when a challenge may be spent by the user: solved, bound to a user, and to this one. */
  predicate Spendable(db: Db, challengeId: string, user: nat) {
    && challengeId != ""
    && challengeId in db.challenges
    && db.challenges[challengeId] == Challenge(Some(user), ChVerified)
  }

  function SetChallenge(db: Db, challengeId: string, status: ChallengeStatus): Db
    requires challengeId in db.challenges
  {
    db.(challenges := db.challenges[challengeId := db.challenges[challengeId].(status := status)])
  }

  /** CaptchaConsumer::consume: the new database and whether the challenge was spent. */
  function ConsumeTx(db: Db, challengeId: string, user: nat): (Db, bool) {
    if Spendable(db, challengeId, user) then (SetChallenge(db, challengeId, ChConsumed), true)
    else (db, false)
  }

  /** CaptchaConsumer::unconsume: the new database and whether the compensation fired. */
  function UnconsumeTx(db: Db, challengeId: string, user: nat): (Db, bool) {
    if && challengeId != ""
       && challengeId in db.challenges
       && db.challenges[challengeId] == Challenge(Some(user), ChConsumed)
    then (SetChallenge(db, challengeId, ChVerified), true)
    else (db, false)
  }

  /** EarnSessionClaimService::rejectRow: a write keyed by id only, whatever the status is. */
  function RejectRowTx(db: Db, key: SessionKey): Db {
    if key in db.sessions then db.(sessions := db.sessions[key := db.sessions[key].(status := Rejected)])
    else db
  }

  /** A registration, with the referral row when somebody referred the new user. */
  function RegisterTx(db: Db, user: nat, referrer: Option<nat>): Db {
    if MayEnroll(db.books, user, referrer) then
      db.(books := Enroll(db.books, user, referrer),
          lifetime := if referrer.Some? then db.lifetime[user := 0] else db.lifetime)
    else db
  }

  /** ReferralPayout::settle inside the credit transaction. */
  function SettleTx(db: Db, user: nat, reward: int, key: SessionKey, rates: Commission.Rates): Option<Db>
    requires user in db.books.users
  {
    var commission := Commission.Of(reward, rates);
    match db.books.users[user].referrer
    case None => Some(db)
    case Some(referrer) =>
      if commission == 0 then Some(db)
      else
        match Post(db.books, referrer, commission, ReferralCommission, SessionRef(key))
        case None => None
        case Some(paid) => Some(AddLifetime(db.(books := paid), user, commission))
  }

  /** The increment of the referral row; without a row it updates nothing. */
  function AddLifetime(db: Db, referred: nat, commission: int): Db {
    if referred in db.lifetime then
      db.(lifetime := db.lifetime[referred := db.lifetime[referred] + commission])
    else db
  }

  datatype CreditOutcome = Committed(db: Db) | NotPending | Threw

  /**
   * The credit transaction of `claim`. `fails` stands for any exception the model does not
   * derive itself (a database error, or the post-credit hook); a throw rolls everything back.
   */
  function CreditTx(db: Db, key: SessionKey, user: nat, reward: int, rates: Commission.Rates,
    fails: bool): CreditOutcome {
    if key !in db.sessions || db.sessions[key].status != Pending then
      if fails then Threw else NotPending
    else
      var claimed := db.(sessions := db.sessions[key := db.sessions[key].(status := Verified)]);
      match Post(claimed.books, user, reward, Reward(key.surface), SessionRef(key))
      case None => Threw
      case Some(paid) =>
        match SettleTx(claimed.(books := paid), user, reward, key, rates)
        case None => Threw
        case Some(settled) => if fails then Threw else Committed(settled)
  }

  // ----- Interleaving -----

  /** Where a `/complete` request stands between two transactions. */
  datatype Pc =
    | AtConsume    // the cheap pending and token checks passed
    | AtGates      // it consumed its challenge
    | AtCredit     // the gates passed
    | AtUnconsume  // the credit failed, or seems to have; the compensation is due
    | Credited     // the credit committed
    | Burned       // ended with the challenge still spent: a gate refused, or the process died
    | Refused      // ended without holding a challenge

  /** `credited` is a history variable: the request's credit transaction committed. */
  datatype Request = Request(key: SessionKey, user: nat, challengeId: string, reward: int, pc: Pc, credited: bool)

  /** The request consumed its challenge and has not given it back. */
  predicate Holds(q: Request) {
    q.pc in {AtGates, AtCredit, AtUnconsume, Credited, Burned}
  }

  function Holders(requests: map<nat, Request>, c: string): set<nat> {
    set r | r in requests && requests[r].challengeId == c && Holds(requests[r])
  }

  /**
   * History of one challenge. `clobbered`: verifier writes while a request held it. `reopened`:
   * those of them that made it spendable again. `unacked`: credits it backed whose commit was
   * reported as an exception.
   */
  datatype Trace = Trace(clobbered: nat, reopened: nat, unacked: nat)

  /** `verifiers` are ChallengeVerifier calls that have read `issued` and not yet written. */
  datatype System = System(
    db: Db,
    requests: map<nat, Request>,
    verifiers: map<nat, string>,
    traces: map<string, Trace>)

  /** What ChallengeVerifier decided from its read: a pass, a refusal, or a missed deadline. */
  datatype Verdict = Pass | Refuse | TimeOut
  {
    function Status(): ChallengeStatus {
      match this
      case Pass => ChVerified
      case Refuse => ChRejected
      case TimeOut => ChExpired
    }
  }

  /** How the credit transaction ends: as written, rolled back, or committed but reported as failed. */
  datatype Fault = NoFault | Fails | Unacked

  datatype Step =
    | Register(user: nat, referrer: Option<nat>)
    | StartSession(key: SessionKey, user: nat, token: string)
    | IssueChallenge(challengeId: string, owner: Option<nat>)
    | VerifyRead(verifier: nat, challengeId: string)
    | VerifyWrite(verifier: nat, verdict: Verdict)
    | Expire(challengeId: string)  // the nightly cleanup
    | Arrive(request: nat, key: SessionKey, user: nat, token: string, challengeId: string, reward: int)
    | Consume(request: nat)
    | GatePass(request: nat)
    | GateReject(request: nat)
    | Credit(request: nat, fault: Fault, rates: Commission.Rates)
    | Unconsume(request: nat)
    | Crash(request: nat)
    | PostElsewhere(payee: nat, delta: int, reason: Reason, ref: Ref)  // a ledger row of payouts or ads
    | PayoutElsewhere(payee: nat, amount: int)                         // a payout settled

  const EMPTY_DB := Db(map[], map[], map[], BLANK)

  const INIT := System(EMPTY_DB, map[], map[], map[])

  function TraceOf(sys: System, c: string): Trace {
    if c in sys.traces then sys.traces[c] else Trace(0, 0, 0)
  }

  function Goto(sys: System, request: nat, pc: Pc): System
    requires request in sys.requests
  {
    sys.(requests := sys.requests[request := sys.requests[request].(pc := pc)])
  }

  predicate At(sys: System, request: nat, pc: Pc) {
    request in sys.requests && sys.requests[request].pc == pc
  }

  /** The trace after a verifier writes to a challenge of the given status. */
  function Rewritten(t: Trace, status: ChallengeStatus, verdict: Verdict, held: bool): Trace {
    if !held then t
    else
      t.(clobbered := t.clobbered + 1,
         reopened := t.reopened + (if verdict.Pass? && status != ChVerified then 1 else 0))
  }

  /** ChallengeVerifier's write, which repeats nothing of what it read. */
  function VerifyWriteStep(sys: System, v: nat, verdict: Verdict): System {
    if v !in sys.verifiers || sys.verifiers[v] !in sys.db.challenges then sys
    else
      var c := sys.verifiers[v];
      System(
        SetChallenge(sys.db, c, verdict.Status()),
        sys.requests,
        sys.verifiers - {v},
        sys.traces[c := Rewritten(TraceOf(sys, c), sys.db.challenges[c].status, verdict,
          Holders(sys.requests, c) != {})])
  }

  /** The credit transaction of a request whose gates passed. */
  function CreditStep(sys: System, r: nat, fault: Fault, rates: Commission.Rates): System {
    if !At(sys, r, AtCredit) then sys
    else
      var q := sys.requests[r];
      match CreditTx(sys.db, q.key, q.user, q.reward, rates, fault.Fails?)
      case Committed(db') =>
        if fault.Unacked? then
          var t := TraceOf(sys, q.challengeId);
          sys.(db := db',
               requests := sys.requests[r := q.(pc := AtUnconsume, credited := true)],
               traces := sys.traces[q.challengeId := t.(unacked := t.unacked + 1)])
        else sys.(db := db', requests := sys.requests[r := q.(pc := Credited, credited := true)])
      case NotPending => Goto(sys, r, AtUnconsume)
      case Threw => Goto(sys, r, AtUnconsume)
  }

  /** One transaction of one process; a step that is not enabled changes nothing. */
  function Next(sys: System, step: Step): System {
    var db := sys.db;
    match step
    case Register(u, referrer) => sys.(db := RegisterTx(db, u, referrer))
    case StartSession(key, u, token) =>
      if key in db.sessions || u !in db.books.users then sys
      else sys.(db := db.(sessions := db.sessions[key := Session(u, token, Pending)]))
    case IssueChallenge(c, owner) =>
      if c in db.challenges then sys
      else sys.(db := db.(challenges := db.challenges[c := Challenge(owner, ChIssued)]))
    case VerifyRead(v, c) =>
      if v in sys.verifiers || c !in db.challenges || db.challenges[c].status != ChIssued then sys
      else sys.(verifiers := sys.verifiers[v := c])
    case VerifyWrite(v, verdict) => VerifyWriteStep(sys, v, verdict)
    case Expire(c) =>
      if c !in db.challenges || db.challenges[c].status != ChIssued then sys
      else sys.(db := SetChallenge(db, c, ChExpired))
    case Arrive(r, key, u, token, c, reward) =>
      if r in sys.requests || u !in db.books.users || key !in db.sessions || db.sessions[key].user != u then sys
      else
        var admitted := db.sessions[key].status == Pending && db.sessions[key].token == token;
        sys.(requests := sys.requests[r := Request(key, u, c, reward, if admitted then AtConsume else Refused, false)])
    case Consume(r) =>
      if !At(sys, r, AtConsume) then sys
      else
        var (db', spent) := ConsumeTx(db, sys.requests[r].challengeId, sys.requests[r].user);
        Goto(sys.(db := db'), r, if spent then AtGates else Refused)
    case GatePass(r) =>
      if !At(sys, r, AtGates) then sys else Goto(sys, r, AtCredit)
    case GateReject(r) =>
      if !At(sys, r, AtGates) then sys
      else Goto(sys.(db := RejectRowTx(db, sys.requests[r].key)), r, Burned)
    case Credit(r, fault, rates) => CreditStep(sys, r, fault, rates)
    case Unconsume(r) =>
      if !At(sys, r, AtUnconsume) then sys
      else
        var (db', _) := UnconsumeTx(db, sys.requests[r].challengeId, sys.requests[r].user);
        Goto(sys.(db := db'), r, Refused)
    case Crash(r) =>
      if r !in sys.requests then sys
      else if sys.requests[r].pc == AtConsume then Goto(sys, r, Refused)
      else if sys.requests[r].pc in {AtGates, AtCredit, AtUnconsume} then Goto(sys, r, Burned)
      else sys
    case PostElsewhere(u, delta, reason, ref) =>
      if AreaOf(reason) == Earning || AreaOfRef(ref) == Earning then sys
      else sys.(db := db.(books := PostOrKeep(db.books, u, delta, reason, ref)))
    case PayoutElsewhere(u, amount) => sys.(db := db.(books := CountPayout(db.books, u, amount)))
  }

  /** The state after a sequence of steps. */
  function Run(sys: System, steps: seq<Step>): System
    decreases |steps|
  {
    if steps == [] then sys else Run(Next(sys, steps[0]), steps[1..])
  }

  lemma {:induction false} RunAppend(sys: System, a: seq<Step>, b: seq<Step>)
    ensures Run(sys, a + b) == Run(Run(sys, a), b)
    decreases |a|
  {
    if a == [] {
      assert a + b == b;
    } else {
      assert (a + b)[1..] == a[1..] + b;
      RunAppend(Next(sys, a[0]), a[1..], b);
    }
  }

  lemma RunOne(sys: System, step: Step)
    ensures Run(sys, [step]) == Next(sys, step)
  {
    assert Run(Next(sys, step), [step][1..]) == Next(sys, step);
  }

  lemma RunTwo(sys: System, a: Step, b: Step)
    ensures Run(sys, [a, b]) == Next(Next(sys, a), b)
  {
    assert [a, b] == [a] + [b];
    RunAppend(sys, [a], [b]);
    RunOne(sys, a);
    RunOne(Next(sys, a), b);
  }
}
