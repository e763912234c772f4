/** Referral rows: what a referrer has earned from each referred user. */
module EarnClaimReferrals {
  import opened Common
  import opened Books
  import opened EarnClaim
  import opened EarnClaimLedger
  import Commission

  /** The commission row was paid for a session of the given user. */
  predicate EarnedFrom(row: LedgerRow, sessions: map<SessionKey, Session>, referred: nat) {
    && row.reason.ReferralCommission? && row.ref.SessionRef?
    && row.ref.key in sessions && sessions[row.ref.key].user == referred
  }

  /** The sum of the commissions paid for one user's sessions. */
  function CommissionFrom(ledger: seq<LedgerRow>, sessions: map<SessionKey, Session>, referred: nat): int {
    if ledger == [] then 0
    else
      var last := ledger[|ledger| - 1];
      CommissionFrom(ledger[..|ledger| - 1], sessions, referred)
      + (if EarnedFrom(last, sessions, referred) then last.delta else 0)
  }

  lemma CommissionAppend(ledger: seq<LedgerRow>, row: LedgerRow, sessions: map<SessionKey, Session>, referred: nat)
    ensures CommissionFrom(ledger + [row], sessions, referred)
         == CommissionFrom(ledger, sessions, referred) + (if EarnedFrom(row, sessions, referred) then row.delta else 0)
  {
    assert (ledger + [row])[..|ledger|] == ledger;
  }

  /** Sessions keep their owner, so what a user's sessions have brought in stays the same. */
  lemma {:induction false} CommissionStable(
    ledger: seq<LedgerRow>, before: map<SessionKey, Session>, after: map<SessionKey, Session>, referred: nat)
    requires SessionsAdvance(before, after)
    requires forall row :: row in ledger && row.ref.SessionRef? ==> row.ref.key in before
    ensures CommissionFrom(ledger, after, referred) == CommissionFrom(ledger, before, referred)
  {
    if ledger != [] {
      var front := ledger[..|ledger| - 1];
      assert forall row :: row in front ==> row in ledger;
      assert ledger[|ledger| - 1] in ledger;
      CommissionStable(front, before, after, referred);
    }
  }

  /** Nobody without commission rows has brought in anything. */
  lemma {:induction false} NoRowsNoCommission(ledger: seq<LedgerRow>, sessions: map<SessionKey, Session>, referred: nat)
    requires forall row :: row in ledger ==> !EarnedFrom(row, sessions, referred)
    ensures CommissionFrom(ledger, sessions, referred) == 0
  {
    if ledger != [] {
      var front := ledger[..|ledger| - 1];
      assert forall row :: row in front ==> row in ledger;
      assert ledger[|ledger| - 1] in ledger;
      NoRowsNoCommission(front, sessions, referred);
    }
  }

  /** A commission row pays the referrer of the user whose session it refers to. */
  ghost predicate PaysReferrer(db: Db, row: LedgerRow) {
    && (row.ref.SessionRef? ==> row.ref.key in db.sessions)
    && (row.reason.ReferralCommission? ==>
          && row.ref.SessionRef?
          && var viewer := db.sessions[row.ref.key].user;
          viewer in db.books.users && db.books.users[viewer].referrer == Some(row.user))
  }

  ghost predicate LifetimeMatches(db: Db, referred: nat) {
    && (referred in db.lifetime <==> referred in db.books.users && db.books.users[referred].referrer.Some?)
    && (referred in db.lifetime ==> db.lifetime[referred] == CommissionFrom(db.books.ledger, db.sessions, referred))
  }

  ghost predicate ReferralInv(db: Db) {
    && (forall row :: row in db.books.ledger ==> PaysReferrer(db, row))
    && (forall u: nat :: LifetimeMatches(db, u))
  }

  // ----- Steps that credit -----

  lemma CreditKeepsLifetime(db: Db, key: SessionKey, user: nat, reward: int, rates: Commission.Rates,
    fails: bool, u: nat)
    requires ReferralInv(db) && CreditTx(db, key, user, reward, rates, fails).Committed?
    requires key in db.sessions && db.sessions[key].user == user
    ensures LifetimeMatches(CreditTx(db, key, user, reward, rates, fails).db, u)
  {
    var db' := CreditTx(db, key, user, reward, rates, fails).db;
    CommittedCredit(db, key, user, reward, rates, fails);
    assert LifetimeMatches(db, u) && LifetimeMatches(db, user);
    forall row | row in db.books.ledger && row.ref.SessionRef? ensures row.ref.key in db.sessions {
      assert PaysReferrer(db, row);
    }
    CommissionStable(db.books.ledger, db.sessions, db'.sessions, u);
    RowsAppend(db, db', CreditRows(db, key, user, reward, rates), u);
  }

  /** At most two rows: appending them one after the other. */
  lemma RowsAppend(db: Db, db': Db, rows: seq<LedgerRow>, u: nat)
    requires db'.books.ledger == db.books.ledger + rows && 1 <= |rows| <= 2 && rows[0].reason.Reward?
    ensures CommissionFrom(db'.books.ledger, db'.sessions, u) == CommissionFrom(db.books.ledger, db'.sessions, u)
      + (if |rows| == 2 && EarnedFrom(rows[1], db'.sessions, u) then rows[1].delta else 0)
  {
    CommissionAppend(db.books.ledger, rows[0], db'.sessions, u);
    if |rows| == 2 {
      CommissionAppend(db.books.ledger + [rows[0]], rows[1], db'.sessions, u);
      assert db'.books.ledger == db.books.ledger + [rows[0]] + [rows[1]];
    } else {
      assert db'.books.ledger == db.books.ledger + [rows[0]];
    }
  }

  lemma CreditKeepsPayees(db: Db, key: SessionKey, user: nat, reward: int, rates: Commission.Rates, fails: bool,
    row: LedgerRow)
    requires ReferralInv(db) && CreditTx(db, key, user, reward, rates, fails).Committed?
    requires key in db.sessions && db.sessions[key].user == user
    requires row in CreditTx(db, key, user, reward, rates, fails).db.books.ledger
    ensures PaysReferrer(CreditTx(db, key, user, reward, rates, fails).db, row)
  {
    CommittedCredit(db, key, user, reward, rates, fails);
    if row in db.books.ledger { assert PaysReferrer(db, row); }
  }

  // ----- Steps that credit nobody -----

  lemma RegisterKeepsReferrals(sys: System, user: nat, referrer: Option<nat>)
    requires ReferralInv(sys.db)
    ensures ReferralInv(RegisterTx(sys.db, user, referrer))
  {
    var db, db' := sys.db, RegisterTx(sys.db, user, referrer);
    forall row | row in db'.books.ledger ensures PaysReferrer(db', row) {
      assert PaysReferrer(db, row);
    }
    forall u: nat ensures LifetimeMatches(db', u) {
      assert LifetimeMatches(db, u);
      if u !in db.books.users { StrangersBroughtNothing(db, u); }
    }
  }

  lemma StrangersBroughtNothing(db: Db, u: nat)
    requires ReferralInv(db) && u !in db.books.users
    ensures CommissionFrom(db.books.ledger, db.sessions, u) == 0
  {
    forall row | row in db.books.ledger ensures !EarnedFrom(row, db.sessions, u) {
      assert PaysReferrer(db, row);
    }
    NoRowsNoCommission(db.books.ledger, db.sessions, u);
  }

  /** Referrers and referral rows change by registrations and credits only. */
  lemma OtherStepsKeepLifetimes(sys: System, step: Step)
    requires !Commits(sys, step) && !step.Register?
    ensures Next(sys, step).db.lifetime == sys.db.lifetime
    ensures SameReferrers(sys.db.books.users, Next(sys, step).db.books.users)
  {
  }

  ghost predicate SameReferrers(users: map<nat, User>, users': map<nat, User>) {
    users'.Keys == users.Keys && forall u :: u in users ==> users'[u].referrer == users[u].referrer
  }

  lemma ReferralsCarry(db: Db, db': Db)
    requires ReferralInv(db) && db'.lifetime == db.lifetime && SameReferrers(db.books.users, db'.books.users)
    requires SessionsAdvance(db.sessions, db'.sessions) && OnlyElsewhere(db.books.ledger, db'.books.ledger)
    ensures ReferralInv(db')
  {
    var ledger := db.books.ledger;
    forall row | row in ledger && row.ref.SessionRef? ensures row.ref.key in db.sessions {
      assert PaysReferrer(db, row);
    }
    forall row | row in db'.books.ledger ensures PaysReferrer(db', row) {
      if row in ledger { assert PaysReferrer(db, row); }
    }
    forall u: nat ensures LifetimeMatches(db', u) {
      assert LifetimeMatches(db, u);
      CommissionStable(ledger, db.sessions, db'.sessions, u);
      if db'.books.ledger != ledger {
        var row :| AddsElsewhere(ledger, db'.books.ledger, row);
        CommissionAppend(ledger, row, db'.sessions, u);
      }
    }
  }

  lemma StepKeepsReferrals(sys: System, step: Step)
    requires LedgerInv(sys) && ReferralInv(sys.db)
    ensures ReferralInv(Next(sys, step).db)
  {
    var db' := Next(sys, step).db;
    if Commits(sys, step) {
      var q := sys.requests[step.request];
      assert RequestOwnsSession(sys, step.request);
      CommitMoves(sys, step);
      forall row | row in db'.books.ledger ensures PaysReferrer(db', row) {
        CreditKeepsPayees(sys.db, q.key, q.user, q.reward, step.rates, step.fault.Fails?, row);
      }
      forall u: nat ensures LifetimeMatches(db', u) {
        CreditKeepsLifetime(sys.db, q.key, q.user, q.reward, step.rates, step.fault.Fails?, u);
      }
    } else if step.Register? {
      RegisterKeepsReferrals(sys, step.user, step.referrer);
    } else {
      OtherStepsEarnNothing(sys, step);
      OtherStepsKeepLifetimes(sys, step);
      StepAdvancesSessions(sys, step);
      ReferralsCarry(sys.db, db');
    }
  }

  lemma {:induction false} RunKeepsReferrals(sys: System, steps: seq<Step>)
    requires LedgerInv(sys) && ReferralInv(sys.db)
    ensures ReferralInv(Run(sys, steps).db)
    decreases |steps|
  {
    if steps != [] {
      StepKeepsLedger(sys, steps[0]);
      StepKeepsReferrals(sys, steps[0]);
      RunKeepsReferrals(Next(sys, steps[0]), steps[1..]);
    }
  }

  /**
   * Over every interleaving, a commission row pays the referrer of the session's own user,
   * and each referral row's lifetime counter is the sum of exactly those rows.
   */
  lemma LifetimeIsCommissionSum(steps: seq<Step>)
    ensures ReferralInv(Run(INIT, steps).db)
  {
    RunKeepsReferrals(INIT, steps);
  }
}
