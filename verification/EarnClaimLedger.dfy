/** One credit per earn session, and the ledger as the account of every balance. */
module EarnClaimLedger {
  import opened Common
  import opened Books
  import opened EarnClaim
  import Commission

  // ----- Invariants of the database -----

  /** An earning row refers to a session that has left `pending`; a reward pays that session's user. */
  ghost predicate RowSettled(db: Db, row: LedgerRow) {
    && (AreaOf(row.reason) == Earning ==> row.ref.SessionRef?)
    && (row.ref.SessionRef? ==>
          && row.ref.key in db.sessions
          && db.sessions[row.ref.key].status != Pending
          && (row.reason.Reward? ==>
                row.reason.surface == row.ref.key.surface && row.user == db.sessions[row.ref.key].user))
  }

  ghost predicate RowsSettled(db: Db) {
    forall row :: row in db.books.ledger ==> RowSettled(db, row)
  }

  ghost predicate DbInv(db: Db) {
    Consistent(db.books) && RowsSettled(db)
  }

  /** The rows one committed credit adds: the reward, then the commission if there is one. */
  function CreditRows(db: Db, key: SessionKey, user: nat, reward: int, rates: Commission.Rates): seq<LedgerRow>
    requires user in db.books.users
  {
    var commission := Commission.Of(reward, rates);
    [LedgerRow(user, reward, Reward(key.surface), SessionRef(key))]
    + (if db.books.users[user].referrer.Some? && commission > 0
       then [LedgerRow(db.books.users[user].referrer.value, commission, ReferralCommission, SessionRef(key))] else [])
  }

  /** A committed credit found the session pending, verified it, and added exactly `CreditRows`. */
  lemma CommittedCredit(db: Db, key: SessionKey, user: nat, reward: int, rates: Commission.Rates, fails: bool)
    requires CreditTx(db, key, user, reward, rates, fails).Committed?
    ensures !fails && user in db.books.users && key in db.sessions && db.sessions[key].status == Pending
    ensures
      var db' := CreditTx(db, key, user, reward, rates, fails).db;
      && db'.sessions == db.sessions[key := db.sessions[key].(status := Verified)]
      && db'.books.ledger == db.books.ledger + CreditRows(db, key, user, reward, rates)
      && db'.books.users.Keys == db.books.users.Keys
      && (forall u :: u in db.books.users ==>
            && db'.books.users[u].referrer == db.books.users[u].referrer
            && db'.books.users[u].totalWithdrawn == db.books.users[u].totalWithdrawn)
      && db'.lifetime == (if db.books.users[user].referrer.Some? && Commission.Of(reward, rates) > 0
                          then AddLifetime(db, user, Commission.Of(reward, rates)).lifetime else db.lifetime)
  {
  }

  lemma CommittedCreditKeepsBooks(db: Db, key: SessionKey, user: nat, reward: int, rates: Commission.Rates, fails: bool)
    requires Consistent(db.books) && CreditTx(db, key, user, reward, rates, fails).Committed?
    ensures Consistent(CreditTx(db, key, user, reward, rates, fails).db.books)
  {
    PostKeepsBooks(db.books, user, reward, Reward(key.surface), SessionRef(key));
    var paid := PostOrKeep(db.books, user, reward, Reward(key.surface), SessionRef(key));
    var commission := Commission.Of(reward, rates);
    if paid.users[user].referrer.Some? && commission > 0 {
      PostKeepsBooks(paid, paid.users[user].referrer.value, commission, ReferralCommission, SessionRef(key));
    }
  }

  lemma CommittedCreditKeepsInv(db: Db, key: SessionKey, user: nat, reward: int, rates: Commission.Rates, fails: bool)
    requires DbInv(db) && CreditTx(db, key, user, reward, rates, fails).Committed?
    requires key in db.sessions && db.sessions[key].user == user
    ensures DbInv(CreditTx(db, key, user, reward, rates, fails).db)
  {
    CommittedCredit(db, key, user, reward, rates, fails);
    CommittedCreditKeepsBooks(db, key, user, reward, rates, fails);
    var db' := CreditTx(db, key, user, reward, rates, fails).db;
    forall row | row in db'.books.ledger ensures RowSettled(db', row) {
      if row in db.books.ledger { assert RowSettled(db, row); }
    }
  }

  /**
   * The status guard alone decides: from a consistent database a pending session's credit
   * always commits, so the UNIQUE index is never the reason a claim fails.
   */
  lemma IndexNeverFires(db: Db, key: SessionKey, user: nat, reward: int, rates: Commission.Rates)
    requires DbInv(db) && user in db.books.users
    ensures CreditTx(db, key, user, reward, rates, false).Committed?
        <==> key in db.sessions && db.sessions[key].status == Pending
  {
    if key in db.sessions && db.sessions[key].status == Pending {
      forall reason ensures IndexFree(db.books.ledger, reason, SessionRef(key)) {
        forall i | 0 <= i < |db.books.ledger| ensures db.books.ledger[i].ref != SessionRef(key) {
          var row := db.books.ledger[i];
          assert row in db.books.ledger && RowSettled(db, row);
        }
      }
      IndexAppend(db.books.ledger, LedgerRow(user, reward, Reward(key.surface), SessionRef(key)), ReferralCommission,
        SessionRef(key));
      assert ReferrersExist(db.books.users);
    }
  }

  // ----- Invariants of the whole system -----

  /** A request acts for the user who owns its session. */
  ghost predicate RequestOwnsSession(sys: System, r: nat)
    requires r in sys.requests
  {
    var q := sys.requests[r];
    q.key in sys.db.sessions && sys.db.sessions[q.key].user == q.user && q.user in sys.db.books.users
  }

  ghost predicate RequestsOwnSessions(sys: System) {
    forall r :: r in sys.requests ==> RequestOwnsSession(sys, r)
  }

  /** The ledger row that pays a request. */
  function RewardRow(q: Request): LedgerRow {
    LedgerRow(q.user, q.reward, Reward(q.key.surface), SessionRef(q.key))
  }

  /** Request `r` was credited, and `row` is what it was paid. */
  ghost predicate PaidBy(requests: map<nat, Request>, r: nat, row: LedgerRow) {
    r in requests && requests[r].credited && RewardRow(requests[r]) == row
  }

  ghost predicate EveryCreditHasRow(requests: map<nat, Request>, ledger: seq<LedgerRow>) {
    forall r :: r in requests && requests[r].credited ==> RewardRow(requests[r]) in ledger
  }

  ghost predicate EveryRowHasCredit(requests: map<nat, Request>, ledger: seq<LedgerRow>) {
    forall row :: row in ledger && row.reason.Reward? ==> exists r :: PaidBy(requests, r, row)
  }

  ghost predicate CreditKeysDistinct(requests: map<nat, Request>) {
    forall r1, r2 | r1 in requests && r2 in requests ::
      requests[r1].credited && requests[r2].credited && requests[r1].key == requests[r2].key ==> r1 == r2
  }

  /** Credited requests and reward rows correspond one to one. */
  ghost predicate CreditsMatchRows(requests: map<nat, Request>, ledger: seq<LedgerRow>) {
    EveryCreditHasRow(requests, ledger) && EveryRowHasCredit(requests, ledger) && CreditKeysDistinct(requests)
  }

  ghost predicate LedgerInv(sys: System) {
    DbInv(sys.db) && RequestsOwnSessions(sys) && CreditsMatchRows(sys.requests, sys.db.books.ledger)
  }

  /** The step is a credit that commits. */
  predicate Commits(sys: System, step: Step) {
    step.Credit? && At(sys, step.request, AtCredit) &&
      var q := sys.requests[step.request];
      CreditTx(sys.db, q.key, q.user, q.reward, step.rates, step.fault.Fails?).Committed?
  }

  lemma CommitMoves(sys: System, step: Step)
    requires Commits(sys, step)
    ensures
      var q, sys' := sys.requests[step.request], Next(sys, step);
      && sys'.db == CreditTx(sys.db, q.key, q.user, q.reward, step.rates, step.fault.Fails?).db
      && sys'.requests == sys.requests[step.request :=
           q.(credited := true, pc := if step.fault.Unacked? then AtUnconsume else Credited)]
  {
  }

  /** Sessions are never deleted, never change hands, and never return to `pending`. */
  ghost predicate SessionsAdvance(before: map<SessionKey, Session>, after: map<SessionKey, Session>) {
    forall key :: key in before ==>
      && key in after
      && after[key].user == before[key].user
      && (before[key].status != Pending ==> after[key].status != Pending)
  }

  lemma StepAdvancesSessions(sys: System, step: Step)
    ensures SessionsAdvance(sys.db.sessions, Next(sys, step).db.sessions)
    ensures sys.db.books.users.Keys <= Next(sys, step).db.books.users.Keys
  {
    if Commits(sys, step) {
      var q := sys.requests[step.request];
      CommitMoves(sys, step);
      CommittedCredit(sys.db, q.key, q.user, q.reward, step.rates, step.fault.Fails?);
    } else {
      OtherStepsAdvanceSessions(sys, step);
      OtherStepsKeepUsers(sys, step);
    }
  }

  lemma OtherStepsAdvanceSessions(sys: System, step: Step)
    requires !Commits(sys, step)
    ensures SessionsAdvance(sys.db.sessions, Next(sys, step).db.sessions)
  {
  }

  lemma OtherStepsKeepUsers(sys: System, step: Step)
    requires !Commits(sys, step)
    ensures sys.db.books.users.Keys <= Next(sys, step).db.books.users.Keys
  {
  }

  /** A request keeps its identity; a new one is admitted only for its user's own session. */
  ghost predicate RequestsAdvance(sys: System, requests: map<nat, Request>) {
    && (forall r :: r in sys.requests ==> RequestAdvances(sys.requests[r], requests, r))
    && (forall r :: r in requests && r !in sys.requests ==> RequestAdmitted(sys, requests[r]))
  }

  predicate RequestAdvances(q: Request, requests: map<nat, Request>, r: nat) {
    r in requests && requests[r].(pc := q.pc, credited := q.credited) == q && (q.credited ==> requests[r].credited)
  }

  predicate RequestAdmitted(sys: System, q: Request) {
    && !q.credited
    && q.key in sys.db.sessions && sys.db.sessions[q.key].user == q.user && q.user in sys.db.books.users
  }

  lemma RequestStays(sys: System, step: Step, r: nat)
    requires r in sys.requests
    ensures RequestAdvances(sys.requests[r], Next(sys, step).requests, r)
  {
    if Commits(sys, step) { CommitMoves(sys, step); } else { OtherStepsMoveOne(sys, step, r); }
  }

  lemma OtherStepsMoveOne(sys: System, step: Step, r: nat)
    requires !Commits(sys, step) && r in sys.requests
    ensures var requests := Next(sys, step).requests;
      r in requests && requests[r] == sys.requests[r].(pc := requests[r].pc)
  {
  }

  lemma RequestArrives(sys: System, step: Step, r: nat)
    requires r !in sys.requests && r in Next(sys, step).requests
    ensures RequestAdmitted(sys, Next(sys, step).requests[r])
  {
  }

  lemma StepAdvancesRequests(sys: System, step: Step)
    ensures RequestsAdvance(sys, Next(sys, step).requests)
  {
    var requests := Next(sys, step).requests;
    forall r | r in sys.requests ensures RequestAdvances(sys.requests[r], requests, r) {
      RequestStays(sys, step, r);
    }
    forall r | r in requests && r !in sys.requests ensures RequestAdmitted(sys, requests[r]) {
      RequestArrives(sys, step, r);
    }
  }

  lemma OwnershipCarries(sys: System, sys': System)
    requires RequestsOwnSessions(sys) && RequestsAdvance(sys, sys'.requests)
    requires SessionsAdvance(sys.db.sessions, sys'.db.sessions) && sys.db.books.users.Keys <= sys'.db.books.users.Keys
    ensures RequestsOwnSessions(sys')
  {
    forall r | r in sys'.requests ensures RequestOwnsSession(sys', r) {
      if r in sys.requests {
        assert RequestOwnsSession(sys, r);
        assert RequestAdvances(sys.requests[r], sys'.requests, r);
      } else {
        assert RequestAdmitted(sys, sys'.requests[r]);
      }
    }
  }

  // ----- Steps that credit nobody -----

  /** At most one row was added, and it belongs to payouts or ads. */
  ghost predicate OnlyElsewhere(ledger: seq<LedgerRow>, ledger': seq<LedgerRow>) {
    ledger' == ledger || exists row :: AddsElsewhere(ledger, ledger', row)
  }

  predicate AddsElsewhere(ledger: seq<LedgerRow>, ledger': seq<LedgerRow>, row: LedgerRow) {
    ledger' == ledger + [row] && AreaOf(row.reason) != Earning && AreaOfRef(row.ref) != Earning
  }

  /** Only a committed credit writes earning rows. */
  lemma OtherStepsEarnNothing(sys: System, step: Step)
    requires !Commits(sys, step)
    ensures OnlyElsewhere(sys.db.books.ledger, Next(sys, step).db.books.ledger)
  {
    if step.PostElsewhere? {
      var row := LedgerRow(step.payee, step.delta, step.reason, step.ref);
      assert Next(sys, step).db.books.ledger == sys.db.books.ledger
        || AddsElsewhere(sys.db.books.ledger, Next(sys, step).db.books.ledger, row);
    }
  }

  /** Only a committed credit makes a request credited. */
  lemma OtherStepsCreditNobody(sys: System, step: Step)
    requires !Commits(sys, step)
    ensures forall r, row :: PaidBy(Next(sys, step).requests, r, row) <==> PaidBy(sys.requests, r, row)
  {
  }

  lemma OtherStepsKeepBooks(sys: System, step: Step)
    requires Consistent(sys.db.books) && !Commits(sys, step)
    ensures Consistent(Next(sys, step).db.books)
  {
    match step
    case Register(u, referrer) => EnrollKeepsBooks(sys.db.books, u, referrer);
    case PostElsewhere(u, delta, reason, ref) => PostKeepsBooks(sys.db.books, u, delta, reason, ref);
    case PayoutElsewhere(u, amount) => CountPayoutKeepsBooks(sys.db.books, u, amount);
    case _ => assert Next(sys, step).db.books == sys.db.books;
  }

  lemma SettledCarries(db: Db, db': Db)
    requires RowsSettled(db) && SessionsAdvance(db.sessions, db'.sessions)
    requires OnlyElsewhere(db.books.ledger, db'.books.ledger)
    ensures RowsSettled(db')
  {
    forall row | row in db'.books.ledger ensures RowSettled(db', row) {
      if row in db.books.ledger { assert RowSettled(db, row); }
    }
  }

  lemma SameCreditsMatch(before: map<nat, Request>, after: map<nat, Request>, ledger: seq<LedgerRow>,
    ledger': seq<LedgerRow>)
    requires CreditsMatchRows(before, ledger) && OnlyElsewhere(ledger, ledger')
    requires forall r, row :: PaidBy(after, r, row) <==> PaidBy(before, r, row)
    ensures CreditsMatchRows(after, ledger')
  {
    forall row | row in ledger' && row.reason.Reward? ensures exists r :: PaidBy(after, r, row) {
      assert row in ledger;
      var r :| PaidBy(before, r, row);
      assert PaidBy(after, r, row);
    }
    forall r | r in after && after[r].credited ensures PaidBy(before, r, RewardRow(after[r])) {
      assert PaidBy(after, r, RewardRow(after[r]));
    }
  }

  // ----- Steps that credit -----

  /** While a session is pending no request has been credited for it. */
  lemma PendingMeansUnpaid(sys: System, key: SessionKey)
    requires LedgerInv(sys) && key in sys.db.sessions && sys.db.sessions[key].status == Pending
    ensures forall r :: r in sys.requests && sys.requests[r].credited ==> sys.requests[r].key != key
  {
    forall r | r in sys.requests && sys.requests[r].credited ensures sys.requests[r].key != key {
      assert RowSettled(sys.db, RewardRow(sys.requests[r]));
    }
  }

  lemma OneMoreCredit(before: map<nat, Request>, r: nat, pc: Pc, ledger: seq<LedgerRow>, rows: seq<LedgerRow>)
    requires CreditsMatchRows(before, ledger) && r in before
    requires forall r' :: r' in before && before[r'].credited ==> before[r'].key != before[r].key
    requires RewardRow(before[r]) in rows
    requires forall row :: row in rows && row.reason.Reward? ==> row == RewardRow(before[r])
    ensures CreditsMatchRows(before[r := before[r].(pc := pc, credited := true)], ledger + rows)
  {
    var after := before[r := before[r].(pc := pc, credited := true)];
    forall row | row in ledger + rows && row.reason.Reward? ensures exists r' :: PaidBy(after, r', row) {
      if row in ledger {
        var r' :| PaidBy(before, r', row);
        assert PaidBy(after, r', row);
      } else {
        assert PaidBy(after, r, row);
      }
    }
  }

  lemma CommitKeepsMatch(sys: System, step: Step)
    requires LedgerInv(sys) && Commits(sys, step)
    ensures CreditsMatchRows(Next(sys, step).requests, Next(sys, step).db.books.ledger)
  {
    var q := sys.requests[step.request];
    CommitMoves(sys, step);
    CommittedCredit(sys.db, q.key, q.user, q.reward, step.rates, step.fault.Fails?);
    PendingMeansUnpaid(sys, q.key);
    var rows := CreditRows(sys.db, q.key, q.user, q.reward, step.rates);
    assert rows[0] == RewardRow(q);
    OneMoreCredit(sys.requests, step.request, if step.fault.Unacked? then AtUnconsume else Credited,
      sys.db.books.ledger, rows);
  }

  lemma CommitKeepsLedger(sys: System, step: Step)
    requires LedgerInv(sys) && Commits(sys, step)
    ensures var sys' := Next(sys, step);
      DbInv(sys'.db) && CreditsMatchRows(sys'.requests, sys'.db.books.ledger)
  {
    var q := sys.requests[step.request];
    assert RequestOwnsSession(sys, step.request);
    CommitMoves(sys, step);
    CommittedCreditKeepsInv(sys.db, q.key, q.user, q.reward, step.rates, step.fault.Fails?);
    CommitKeepsMatch(sys, step);
  }

  lemma StepKeepsLedger(sys: System, step: Step)
    requires LedgerInv(sys)
    ensures LedgerInv(Next(sys, step))
  {
    var sys' := Next(sys, step);
    StepAdvancesRequests(sys, step);
    StepAdvancesSessions(sys, step);
    OwnershipCarries(sys, sys');
    if Commits(sys, step) {
      CommitKeepsLedger(sys, step);
    } else {
      OtherStepsEarnNothing(sys, step);
      OtherStepsCreditNobody(sys, step);
      OtherStepsKeepBooks(sys, step);
      SettledCarries(sys.db, sys'.db);
      SameCreditsMatch(sys.requests, sys'.requests, sys.db.books.ledger, sys'.db.books.ledger);
    }
  }

  lemma {:induction false} RunKeepsLedger(sys: System, steps: seq<Step>)
    requires LedgerInv(sys)
    ensures LedgerInv(Run(sys, steps))
    decreases |steps|
  {
    if steps != [] {
      StepKeepsLedger(sys, steps[0]);
      RunKeepsLedger(Next(sys, steps[0]), steps[1..]);
    }
  }

  // ----- What a run guarantees -----

  /** Two credits never go to the same earn session, whatever the interleaving. */
  lemma SessionCreditedOnce(steps: seq<Step>, r1: nat, r2: nat)
    requires var sys := Run(INIT, steps);
      && r1 in sys.requests && r2 in sys.requests && sys.requests[r1].credited && sys.requests[r2].credited
      && sys.requests[r1].key == sys.requests[r2].key
    ensures r1 == r2
  {
    RunKeepsLedger(INIT, steps);
  }

  /** A session with a credit row is never pending again: no later run reopens it. */
  lemma CreditedSessionStaysClosed(before: seq<Step>, after: seq<Step>, row: LedgerRow)
    requires row in Run(INIT, before).db.books.ledger && row.ref.SessionRef?
    ensures
      var sys := Run(Run(INIT, before), after);
      row.ref.key in sys.db.sessions && sys.db.sessions[row.ref.key].status != Pending
  {
    RunKeepsLedger(INIT, before);
    assert RowSettled(Run(INIT, before).db, row);
    StaysClosed(Run(INIT, before), after, row.ref.key);
  }

  lemma {:induction false} StaysClosed(sys: System, steps: seq<Step>, key: SessionKey)
    requires key in sys.db.sessions && sys.db.sessions[key].status != Pending
    ensures var sys' := Run(sys, steps);
      key in sys'.db.sessions && sys'.db.sessions[key].status != Pending
    decreases |steps|
  {
    if steps != [] {
      StepAdvancesSessions(sys, steps[0]);
      StaysClosed(Next(sys, steps[0]), steps[1..], key);
    }
  }

  /** Reward rows are exactly the credited requests, each paid its own reward to its own user. */
  lemma RowsAreCredits(steps: seq<Step>)
    ensures var sys := Run(INIT, steps);
      CreditsMatchRows(sys.requests, sys.db.books.ledger) && RowsUnique(sys.db.books.ledger)
  {
    RunKeepsLedger(INIT, steps);
  }

  /** In every reachable state a pending session's credit is refused by no constraint. */
  lemma ReachableIndexNeverFires(steps: seq<Step>, r: nat, rates: Commission.Rates)
    requires At(Run(INIT, steps), r, AtCredit)
    ensures
      var sys := Run(INIT, steps);
      var q := sys.requests[r];
      && q.key in sys.db.sessions
      && (At(Next(sys, Credit(r, NoFault, rates)), r, Credited) <==> sys.db.sessions[q.key].status == Pending)
  {
    RunKeepsLedger(INIT, steps);
    var sys := Run(INIT, steps);
    var q := sys.requests[r];
    assert RequestOwnsSession(sys, r);
    IndexNeverFires(sys.db, q.key, q.user, q.reward, rates);
  }
}
