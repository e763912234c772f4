/** Conservation of money over the runs of the whole platform. */
module Conservation {
  import opened Common
  import opened Books
  import opened World
  import opened WorldAreas
  import EarnClaim
  import EarnClaimLedger
  import Withdrawals
  import WithdrawalLedger
  import AdBudget
  import AdLedger

  // ----- The three counters -----

  lemma EarningHolds(steps: seq<Step>)
    ensures EarnClaimLedger.LedgerInv(EarnOf(Run(INIT, steps)))
  {
    var own := EarningRuns(INIT, steps);
    EarnClaimLedger.RunKeepsLedger(EarnClaim.INIT, own);
  }

  lemma PayoutsHold(steps: seq<Step>)
    ensures
      var sys := PayoutsOf(Run(INIT, steps));
      WithdrawalLedger.LedgerInv(sys) && WithdrawalLedger.SettledOnce(sys) && WithdrawalLedger.WithdrawnInv(sys)
  {
    var own := PayoutsRun(INIT, steps);
    WithdrawalLedger.RunKeepsLedger(Withdrawals.INIT, own);
    WithdrawalLedger.RunKeepsWithdrawn(Withdrawals.INIT, own);
  }

  /**
   * In every reachable state of the platform a user's balance is the sum of all the user's
   * ledger rows; `total_earned_sat` is the sum of the reward and commission rows; and
   * `total_withdrawn_sat` is the sum of the withdrawals that ever settled, each counted once.
   */
  lemma CountersAreLedgerSums(steps: seq<Step>, u: nat)
    requires u in Run(INIT, steps).books.users
    ensures
      var w := Run(INIT, steps);
      && w.books.users[u].balance == SumFor(w.books.ledger, u)
      && w.books.users[u].totalEarned == EarnedFor(w.books.ledger, u)
      && w.books.users[u].totalWithdrawn == WithdrawalLedger.SettledSum(w.settled, w.rows, u)
      && WithdrawalLedger.SettledOnce(PayoutsOf(w))
      && RowsUnique(w.books.ledger)
  {
    EarningHolds(steps);
    PayoutsHold(steps);
    assert Agrees(Run(INIT, steps).books, u);
  }

  // ----- Every row belongs to one area -----

  ghost predicate Typed(ledger: seq<LedgerRow>) {
    forall row :: row in ledger ==> AreaOf(row.reason) == AreaOfRef(row.ref)
  }

  lemma {:induction false} MovesKeepTyped(books: Book, moves: seq<Move>, area: Area)
    requires Typed(books.ledger) && MovesOf(moves, area)
    ensures Typed(MovingAll(books, moves).ledger)
    decreases |moves|
  {
    if moves != [] {
      assert MoveOf(moves[0], area);
      MovesKeepTyped(Moving(books, moves[0]), moves[1..], area);
    }
  }

  lemma StepKeepsTyped(w: World, step: Step)
    requires Typed(w.books.ledger)
    ensures Typed(Next(w, step).books.ledger)
  {
    match step
    case Register(_, _) =>
    case Payout(s) =>
      if MayPay(s) {
        var moves := PayoutMoves(PayoutsOf(w), s);
        MovesKeepTyped(w.books, moves, Payouts);
      }
    case Campaign(s) =>
      if MayAdvertise(s) {
        var moves := AdMoves(AdsOf(w), s);
        MovesKeepTyped(w.books, moves, Ads);
      }
    case _ =>
      var moves := EarningMoves(w, step);
      MovesKeepTyped(w.books, moves, Earning);
  }

  lemma {:induction false} RunKeepsTyped(w: World, steps: seq<Step>)
    requires Typed(w.books.ledger)
    ensures Typed(Run(w, steps).books.ledger)
    decreases |steps|
  {
    if steps != [] {
      StepKeepsTyped(w, steps[0]);
      RunKeepsTyped(Next(w, steps[0]), steps[1..]);
    }
  }

  // ----- Sums by withdrawal and by campaign -----

  function UpTo(f: nat -> int, n: nat): int {
    if n == 0 then 0 else UpTo(f, n - 1) + f(n - 1)
  }

  lemma {:induction false} UpToChange(f: nat -> int, g: nat -> int, n: nat, i: nat, d: int)
    requires forall k: nat :: g(k) == f(k) + (if k == i then d else 0)
    ensures UpTo(g, n) == UpTo(f, n) + (if i < n then d else 0)
  {
    if n > 0 { UpToChange(f, g, n - 1, i, d); }
  }

  lemma {:induction false} UpToSame(f: nat -> int, g: nat -> int, n: nat)
    requires forall k: nat :: k < n ==> g(k) == f(k)
    ensures UpTo(g, n) == UpTo(f, n)
  {
    if n > 0 { UpToSame(f, g, n - 1); }
  }

  /** The sum of a user's rows that refer to one thing. */
  function RefSum(ledger: seq<LedgerRow>, u: nat, ref: Ref): int {
    if ledger == [] then 0
    else
      var last := ledger[|ledger| - 1];
      RefSum(ledger[..|ledger| - 1], u, ref) + (if last.user == u && last.ref == ref then last.delta else 0)
  }

  /** All withdrawals and campaigns in the ledger are numbered below `n`. */
  predicate Below(ledger: seq<LedgerRow>, n: nat) {
    forall row :: row in ledger ==> (row.ref.WithdrawalRef? || row.ref.AdRef? ==> row.ref.id < n)
  }

  function PayoutSum(ledger: seq<LedgerRow>, u: nat, n: nat): int {
    UpTo((id: nat) => RefSum(ledger, u, WithdrawalRef(id)), n)
  }

  function AdSum(ledger: seq<LedgerRow>, u: nat, n: nat): int {
    UpTo((id: nat) => RefSum(ledger, u, AdRef(id)), n)
  }

  lemma RefSumAppend(ledger: seq<LedgerRow>, row: LedgerRow, u: nat, ref: Ref)
    ensures RefSum(ledger + [row], u, ref)
      == RefSum(ledger, u, ref) + (if row.user == u && row.ref == ref then row.delta else 0)
  {
    assert (ledger + [row])[..|ledger|] == ledger;
  }

  lemma PayoutSumAppend(ledger: seq<LedgerRow>, row: LedgerRow, u: nat, n: nat)
    ensures PayoutSum(ledger + [row], u, n) == PayoutSum(ledger, u, n)
      + (if row.user == u && row.ref.WithdrawalRef? && row.ref.id < n then row.delta else 0)
  {
    var f := (id: nat) => RefSum(ledger, u, WithdrawalRef(id));
    var g := (id: nat) => RefSum(ledger + [row], u, WithdrawalRef(id));
    var i := if row.ref.WithdrawalRef? then row.ref.id else 0;
    var d := if row.user == u && row.ref.WithdrawalRef? then row.delta else 0;
    forall k: nat ensures g(k) == f(k) + (if k == i then d else 0) { RefSumAppend(ledger, row, u, WithdrawalRef(k)); }
    UpToChange(f, g, n, i, d);
  }

  lemma AdSumAppend(ledger: seq<LedgerRow>, row: LedgerRow, u: nat, n: nat)
    ensures AdSum(ledger + [row], u, n) == AdSum(ledger, u, n)
      + (if row.user == u && row.ref.AdRef? && row.ref.id < n then row.delta else 0)
  {
    var f := (id: nat) => RefSum(ledger, u, AdRef(id));
    var g := (id: nat) => RefSum(ledger + [row], u, AdRef(id));
    var i := if row.ref.AdRef? then row.ref.id else 0;
    var d := if row.user == u && row.ref.AdRef? then row.delta else 0;
    forall k: nat ensures g(k) == f(k) + (if k == i then d else 0) { RefSumAppend(ledger, row, u, AdRef(k)); }
    UpToChange(f, g, n, i, d);
  }

  /** A ledger splits into what was earned, what withdrawals moved, and what campaigns moved. */
  lemma {:induction false} LedgerSplits(ledger: seq<LedgerRow>, u: nat, n: nat)
    requires Typed(ledger) && Below(ledger, n)
    ensures SumFor(ledger, u) == EarnedFor(ledger, u) + PayoutSum(ledger, u, n) + AdSum(ledger, u, n)
  {
    if ledger == [] {
      UpToSame((id: nat) => 0, (id: nat) => RefSum([], u, WithdrawalRef(id)), n);
      UpToSame((id: nat) => 0, (id: nat) => RefSum([], u, AdRef(id)), n);
      UpToZero(n);
    } else {
      var front, last := ledger[..|ledger| - 1], ledger[|ledger| - 1];
      assert ledger == front + [last];
      assert last in ledger;
      LedgerSplits(front, u, n);
      SumsAppend(front, last, u);
      PayoutSumAppend(front, last, u, n);
      AdSumAppend(front, last, u, n);
    }
  }

  lemma {:induction false} UpToZero(n: nat)
    ensures UpTo((id: nat) => 0, n) == 0
  {
    if n > 0 { UpToZero(n - 1); }
  }

  // ----- What a withdrawal and a campaign cost their owner -----

  /** What a withdrawal has taken from a user: its amount, or nothing once it was refunded. */
  function Withdrawn(rows: map<nat, Withdrawals.Row>, id: nat, u: nat): int {
    if id !in rows || rows[id].user != u || rows[id].status in {Withdrawals.Failed, Withdrawals.Rejected} then 0
    else rows[id].amount
  }

  /** What a campaign has taken from a user: its funding less its refund. */
  function Spent(campaigns: map<nat, AdBudget.Campaign>, id: nat, u: nat): int {
    if id !in campaigns || campaigns[id].owner != u then 0
    else AdBudget.Funded(campaigns[id]) - Max(0, AdBudget.Refunded(campaigns[id]))
  }

  lemma {:induction false} RefSumIsWithdrawalNet(ledger: seq<LedgerRow>, u: nat, id: nat)
    ensures RefSum(ledger, u, WithdrawalRef(id)) == SumFor(WithdrawalLedger.EntriesFor(ledger, id), u)
  {
    if ledger != [] {
      var front, last := ledger[..|ledger| - 1], ledger[|ledger| - 1];
      RefSumIsWithdrawalNet(front, u, id);
      SumsAppend(WithdrawalLedger.EntriesFor(front, id), last, u);
      assert WithdrawalLedger.EntriesFor(front, id) + [] == WithdrawalLedger.EntriesFor(front, id);
    }
  }

  lemma {:induction false} RefSumIsAdNet(ledger: seq<LedgerRow>, u: nat, id: nat)
    ensures RefSum(ledger, u, AdRef(id)) == SumFor(AdLedger.EntriesFor(ledger, id), u)
  {
    if ledger != [] {
      var front, last := ledger[..|ledger| - 1], ledger[|ledger| - 1];
      RefSumIsAdNet(front, u, id);
      SumsAppend(AdLedger.EntriesFor(front, id), last, u);
      assert AdLedger.EntriesFor(front, id) + [] == AdLedger.EntriesFor(front, id);
    }
  }

  lemma NetOne(a: LedgerRow, u: nat)
    ensures SumFor([a], u) == if a.user == u then a.delta else 0
  {
    SumsAppend([], a, u);
    assert [] + [a] == [a];
  }

  lemma NetTwo(a: LedgerRow, b: LedgerRow, u: nat)
    ensures SumFor([a] + [b], u) == (if a.user == u then a.delta else 0) + (if b.user == u then b.delta else 0)
  {
    NetOne(a, u);
    SumsAppend([a], b, u);
  }

  lemma WithdrawalNet(rows: map<nat, Withdrawals.Row>, id: nat, u: nat)
    ensures SumFor(WithdrawalLedger.Journal(rows, id), u) == 0 - Withdrawn(rows, id, u)
  {
    var entries := WithdrawalLedger.Journal(rows, id);
    if |entries| == 1 {
      assert entries == [entries[0]];
      NetOne(entries[0], u);
    } else if |entries| == 2 {
      assert entries == [entries[0]] + [entries[1]];
      NetTwo(entries[0], entries[1], u);
    }
  }

  lemma CampaignNet(campaigns: map<nat, AdBudget.Campaign>, id: nat, u: nat)
    ensures SumFor(AdLedger.Journal(campaigns, id), u) == 0 - Spent(campaigns, id, u)
  {
    var entries := AdLedger.Journal(campaigns, id);
    if |entries| == 1 {
      assert entries == [entries[0]];
      NetOne(entries[0], u);
    } else if |entries| == 2 {
      assert entries == [entries[0]] + [entries[1]];
      NetTwo(entries[0], entries[1], u);
    }
  }

  // ----- The balance in closed form -----

  /** All withdrawals and campaigns of the state are numbered below `n`. */
  predicate Numbered(w: World, n: nat) {
    (forall id :: id in w.rows ==> id < n) && (forall id :: id in w.campaigns ==> id < n)
  }

  function TotalWithdrawn(w: World, u: nat, n: nat): int {
    UpTo((id: nat) => Withdrawn(w.rows, id, u), n)
  }

  function TotalSpent(w: World, u: nat, n: nat): int {
    UpTo((id: nat) => Spent(w.campaigns, id, u), n)
  }

  lemma {:induction false} UpToNegate(f: nat -> int, g: nat -> int, n: nat)
    requires forall k: nat :: g(k) == 0 - f(k)
    ensures UpTo(g, n) == 0 - UpTo(f, n)
  {
    if n > 0 { UpToNegate(f, g, n - 1); }
  }

  lemma PayoutSumIs(w: World, u: nat, n: nat)
    requires WithdrawalLedger.Journaled(PayoutsOf(w).db)
    ensures PayoutSum(w.books.ledger, u, n) == 0 - TotalWithdrawn(w, u, n)
  {
    var f := (id: nat) => Withdrawn(w.rows, id, u);
    var g := (id: nat) => RefSum(w.books.ledger, u, WithdrawalRef(id));
    forall id: nat ensures g(id) == 0 - f(id) {
      RefSumIsWithdrawalNet(w.books.ledger, u, id);
      assert WithdrawalLedger.EntriesFor(PayoutsOf(w).db.books.ledger, id)
        == WithdrawalLedger.Journal(PayoutsOf(w).db.rows, id);
      WithdrawalNet(w.rows, id, u);
    }
    UpToNegate(f, g, n);
  }

  lemma AdSumIs(w: World, u: nat, n: nat)
    requires AdLedger.Journaled(AdsOf(w))
    ensures AdSum(w.books.ledger, u, n) == 0 - TotalSpent(w, u, n)
  {
    var f := (id: nat) => Spent(w.campaigns, id, u);
    var g := (id: nat) => RefSum(w.books.ledger, u, AdRef(id));
    forall id: nat ensures g(id) == 0 - f(id) {
      RefSumIsAdNet(w.books.ledger, u, id);
      assert AdLedger.EntriesFor(AdsOf(w).books.ledger, id) == AdLedger.Journal(AdsOf(w).campaigns, id);
      CampaignNet(w.campaigns, id, u);
    }
    UpToNegate(f, g, n);
  }

  /** A row refers to a withdrawal or a campaign that exists. */
  lemma RowsAreNumbered(w: World, n: nat)
    requires WithdrawalLedger.Journaled(PayoutsOf(w).db) && AdLedger.Journaled(AdsOf(w)) && Numbered(w, n)
    ensures Below(w.books.ledger, n)
  {
    forall row | row in w.books.ledger && (row.ref.WithdrawalRef? || row.ref.AdRef?) ensures row.ref.id < n {
      if row.ref.WithdrawalRef? {
        EntriesHaveRow(w.books.ledger, row);
        assert WithdrawalLedger.EntriesFor(PayoutsOf(w).db.books.ledger, row.ref.id)
          == WithdrawalLedger.Journal(PayoutsOf(w).db.rows, row.ref.id);
      } else {
        AdEntriesHaveRow(w.books.ledger, row);
        assert AdLedger.EntriesFor(AdsOf(w).books.ledger, row.ref.id)
          == AdLedger.Journal(AdsOf(w).campaigns, row.ref.id);
      }
    }
  }

  lemma {:induction false} EntriesHaveRow(ledger: seq<LedgerRow>, row: LedgerRow)
    requires row in ledger && row.ref.WithdrawalRef?
    ensures row in WithdrawalLedger.EntriesFor(ledger, row.ref.id)
  {
    var front := ledger[..|ledger| - 1];
    if row in front { EntriesHaveRow(front, row); }
  }

  lemma {:induction false} AdEntriesHaveRow(ledger: seq<LedgerRow>, row: LedgerRow)
    requires row in ledger && row.ref.AdRef?
    ensures row in AdLedger.EntriesFor(ledger, row.ref.id)
  {
    var front := ledger[..|ledger| - 1];
    if row in front { AdEntriesHaveRow(front, row); }
  }

  /**
   * The balance in closed form: what a user has is what the user earned, less the withdrawals
   * that were not refunded, less what the user's campaigns cost after their refunds.
   */
  lemma BalanceIsEarnedLessSpent(steps: seq<Step>, u: nat, n: nat)
    requires u in Run(INIT, steps).books.users && SaneCharges(steps) && Numbered(Run(INIT, steps), n)
    ensures
      var w := Run(INIT, steps);
      w.books.users[u].balance == w.books.users[u].totalEarned - TotalWithdrawn(w, u, n) - TotalSpent(w, u, n)
  {
    var w := Run(INIT, steps);
    CountersAreLedgerSums(steps, u);
    PayoutsHold(steps);
    var own := AdsRun(INIT, steps);
    AdLedger.RunKeepsAds(AdLedger.INIT, own);
    RunKeepsTyped(INIT, steps);
    RowsAreNumbered(w, n);
    LedgerSplits(w.books.ledger, u, n);
    PayoutSumIs(w, u, n);
    AdSumIs(w, u, n);
  }
}
