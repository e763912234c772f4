/** What one job, one sighting and one decision of an administrator do to a withdrawal. */
module WithdrawalDecisions {
  import opened Common
  import opened Books
  import opened Withdrawals
  import opened WithdrawalLedger
  import opened WithdrawalStore

  /** One row changed, and nobody's but its own. */
  ghost predicate OnlyRow(db: Db, db': Db, id: nat, row: Row) {
    id in db.rows && db'.rows == db.rows[id := row]
  }

  /** The ledger gained one row of this reason, for the withdrawal's owner, and the balance moved with it. */
  ghost predicate Posts(db: Db, db': Db, row: Row, delta: int, reason: Reason, id: nat) {
    && row.user in db.books.users && row.user in db'.books.users
    && db'.books.ledger == db.books.ledger + [LedgerRow(row.user, delta, reason, WithdrawalRef(id))]
    && db'.books.users[row.user].balance == db.books.users[row.user].balance + delta
    && (forall u :: u in db.books.users && u != row.user ==>
          u in db'.books.users && db'.books.users[u] == db.books.users[u])
  }

  /** The payouts that leave the platform's own ledger for a chain. */
  predicate GoesOnChain(route: Route) {
    route in {LegacyOnchain, OnchainTrx, OnchainUsdtTrc20, OnchainEth, OnchainBtc}
  }

  lemma RefundPosts(db: Db, id: nat, from: set<Status>, to: Status, reason: Reason)
    requires DbInv(db) && id in db.rows && db.rows[id].status in from
    requires Failed !in from && Rejected !in from && reason in {WithdrawRefund, WithdrawRejected}
    ensures
      var (db', done) := RefundTx(db, id, from, to, reason);
      && done && OnlyRow(db, db', id, db.rows[id].(status := to))
      && Posts(db, db', db.rows[id], db.rows[id].amount, reason, id)
  {
    RefundCommits(db, id, from, to, reason);
  }

  // ----- The job -----

  /** The job never touches a row that is not waiting, and only holds back one that needs a review. */
  lemma JobWaits(db: Db, id: nat, reply: GatewayReply)
    ensures
      var (db', threw) := HandleAlone(db, id, reply);
      && (id !in db.rows || db.rows[id].status !in {Queued, Processing} ==> db' == db && !threw)
      && (id in db.rows && db.rows[id].status in {Queued, Processing} && db.rows[id].requiresReview ==>
            !threw && db'.books == db.books && OnlyRow(db, db', id, db.rows[id].(status := Hold)))
  {
  }

  /** The row the job takes up: waiting, and past any review. */
  predicate Payable(db: Db, id: nat) {
    id in db.rows && db.rows[id].status in {Queued, Processing} && !db.rows[id].requiresReview
  }

  /**
   * From a consistent database, each answer of the gateway: ok settles the row, as sent or
   * for the watcher to confirm, and counts the payout; a refusal fails it and refunds the
   * amount; an exception leaves it processing.
   */
  lemma JobDecides(db: Db, id: nat, reply: GatewayReply)
    requires DbInv(db) && Payable(db, id)
    ensures
      var (db', threw) := HandleAlone(db, id, reply);
      var row := db.rows[id].(attempts := db.rows[id].attempts + 1);
      && (threw <==> reply.Unreachable?)
      && match reply
         case PaidOut =>
           && OnlyRow(db, db', id, row.(status := if GoesOnChain(row.route) then Broadcast else Sent))
           && db'.books == CountPayout(db.books, row.user, row.amount) && db'.books.ledger == db.books.ledger
         case RefusedPayout(_) =>
           && OnlyRow(db, db', id, row.(status := Failed))
           && Posts(db, db', row, row.amount, WithdrawRefund, id)
         case Unreachable => OnlyRow(db, db', id, row.(status := Processing)) && db'.books == db.books
  {
    var claimed := ClaimTx(db, id).0;
    ClaimKeepsInv(db, id);
    if reply.RefusedPayout? { RefundPosts(claimed, id, {Queued, Processing}, Failed, WithdrawRefund); }
  }

  // ----- The watcher -----

  /**
   * One sighting of a broadcast row whose transaction is mined: a revert fails the row and
   * refunds it; otherwise it becomes sent exactly from the chain's number of confirmations
   * on, and stays broadcast below.
   */
  lemma SightingDecides(db: Db, id: nat, head: nat, block: nat, reverted: bool)
    requires DbInv(db) && id in db.rows && db.rows[id].status == Broadcast && block > 0
    requires db.rows[id].route in {OnchainTrx, OnchainUsdtTrc20, OnchainEth, OnchainBtc}
    ensures
      var db' := WatchTx(db, id, head, Mined(block, reverted));
      var seen := if head < block then 0 else head - block + 1;
      var row := db.rows[id].(confirmationsSeen := seen);
      var enough := match row.route
        case OnchainBtc => 3
        case OnchainEth => 12
        case _ => 19;
      if reverted && row.route != OnchainBtc then
        OnlyRow(db, db', id, row.(status := Failed)) && Posts(db, db', row, row.amount, WithdrawRefund, id)
      else
        && db'.books == db.books
        && (seen >= enough ==> OnlyRow(db, db', id, row.(status := Sent)))
        && (seen < enough ==> OnlyRow(db, db', id, row.(status := Broadcast)))
  {
    if reverted && db.rows[id].route != OnchainBtc {
      RefundPosts(db, id, {Broadcast}, Failed, WithdrawRefund);
    }
  }

  /** A transaction the chain does not know yet, or has in no block, decides nothing. */
  lemma UnminedDecidesNothing(db: Db, id: nat, head: nat, reverted: bool)
    ensures WatchTx(db, id, head, Unknown) == db && WatchTx(db, id, head, Mined(0, reverted)) == db
  {
  }

  /** What the watcher does to a row depends on that row, and changes no other. */
  lemma WatchIsLocal(a: Db, b: Db, target: nat, head: nat, reply: ChainReply, id: nat)
    requires DbInv(a) && DbInv(b) && id in a.rows && id in b.rows && a.rows[id] == b.rows[id]
    ensures
      var a', b' := WatchTx(a, target, head, reply), WatchTx(b, id, head, reply);
      && id in a'.rows && id in b'.rows
      && (target != id ==> a'.rows[id] == a.rows[id])
      && (target == id ==> a'.rows[id] == b'.rows[id])
  {
    RefundCommits(a, target, {Broadcast}, Failed, WithdrawRefund);
    RefundCommits(b, id, {Broadcast}, Failed, WithdrawRefund);
  }

  /** A row that the sweep did not see is as it was. */
  lemma {:induction false} SweepSkips(db: Db, head: nat, sightings: seq<Sighting>, id: nat)
    requires DbInv(db) && id in db.rows && forall i :: 0 <= i < |sightings| ==> sightings[i].id != id
    ensures
      var db' := SweepAll(db, head, sightings);
      DbInv(db') && id in db'.rows && db'.rows[id] == db.rows[id]
    decreases |sightings|
  {
    if sightings != [] {
      var n := |sightings| - 1;
      SweepSkips(db, head, sightings[..n], id);
      var mid := SweepAll(db, head, sightings[..n]);
      WatchKeepsInv(mid, sightings[n].id, head, sightings[n].reply);
      WatchIsLocal(mid, mid, sightings[n].id, head, sightings[n].reply, id);
    }
  }

  /** A sweep that sees each row once does to each what a sighting of it alone would do. */
  lemma {:induction false} SweepIsPointwise(db: Db, head: nat, sightings: seq<Sighting>, k: nat)
    requires DbInv(db) && k < |sightings| && sightings[k].id in db.rows
    requires forall i, j :: 0 <= i < j < |sightings| ==> sightings[i].id != sightings[j].id
    ensures
      var id := sightings[k].id;
      var db', alone := SweepAll(db, head, sightings), WatchTx(db, id, head, sightings[k].reply);
      DbInv(db') && id in db'.rows && id in alone.rows && db'.rows[id] == alone.rows[id]
    decreases |sightings|
  {
    var n, id := |sightings| - 1, sightings[k].id;
    var front := sightings[..n];
    var mid := SweepAll(db, head, front);
    if k == n {
      SweepSkips(db, head, front, id);
      WatchIsLocal(mid, db, id, head, sightings[n].reply, id);
    } else {
      SweepIsPointwise(db, head, front, k);
      WatchIsLocal(mid, mid, sightings[n].id, head, sightings[n].reply, id);
    }
    WatchKeepsInv(mid, sightings[n].id, head, sightings[n].reply);
  }

  // ----- Requests and reviews -----

  /** A request of a known user is debited at once, and held exactly when it needs a review. */
  lemma RequestDecides(db: Db, id: nat, user: nat, amount: nat, route: Route, needsReview: bool)
    requires DbInv(db) && id !in db.rows && user in db.books.users && amount > 0
    ensures
      var db' := RequestTx(db, id, user, amount, route, needsReview);
      && id in db'.rows && db'.rows == db.rows[id := db'.rows[id]]
      && var row := db'.rows[id];
      && row.user == user && row.amount == amount && row.route == route
      && row.requiresReview == needsReview && row.attempts == 0 && row.confirmationsSeen == 0
      && (needsReview ==> row.status == Hold) && (!needsReview ==> row.status == Queued)
      && Posts(db, db', row, 0 - amount, WithdrawRequest, id)
  {
    IndexSeesEntries(db.books.ledger, WithdrawRequest, id);
    assert EntriesFor(db.books.ledger, id) == Journal(db.rows, id);
  }

  /** The administrator's two decisions: held rows are queued for payment, or refunded. */
  lemma ReviewDecides(db: Db, id: nat)
    requires DbInv(db) && id in db.rows
    ensures
      var row := db.rows[id].(requiresReview := false);
      var (approved, yes) := ApproveTx(db, id);
      var (rejected, no) := RejectTx(db, id);
      && (yes <==> row.status == Hold) && (no <==> row.status in {Hold, Queued})
      && (if yes then OnlyRow(db, approved, id, row.(status := Queued)) && approved.books == db.books
          else approved == db)
      && (if no then
            && OnlyRow(db, rejected, id, row.(status := Rejected))
            && Posts(db, rejected, row, row.amount, WithdrawRejected, id)
          else rejected == db)
  {
    RefundCommits(db, id, {Hold, Queued}, Rejected, WithdrawRejected);
    if db.rows[id].status in {Hold, Queued} {
      RefundPosts(db, id, {Hold, Queued}, Rejected, WithdrawRejected);
    }
  }

  // ----- Held until somebody approves -----

  /** Nothing was ever noted about a row that does not exist. */
  ghost predicate NoGhosts(sys: System) {
    && (forall j :: j in sys.jobs ==> sys.jobs[j].id in sys.db.rows)
    && (forall id :: id in sys.history ==> id in sys.db.rows)
  }

  /** The row waits for its review or was rejected. */
  predicate Unpaid(db: Db, id: nat) {
    && id in db.rows
    && (db.rows[id].status == Rejected || (db.rows[id].status == Hold && db.rows[id].requiresReview))
  }

  /** No worker has ever taken the row up. */
  ghost predicate NeverSent(sys: System, id: nat) {
    (forall j :: j in sys.jobs ==> sys.jobs[j].id != id) && HistoryOf(sys, id).returned == 0
  }

  ghost predicate Untouched(sys: System, id: nat) {
    Unpaid(sys.db, id) && NeverSent(sys, id)
  }

  lemma RowsStay(sys: System, step: Step)
    requires LedgerInv(sys)
    ensures sys.db.rows.Keys <= Next(sys, step).db.rows.Keys
  {
    forall id | id in sys.db.rows ensures id in Next(sys, step).db.rows {
      StepFollowsEdges(sys, step, id);
    }
  }

  lemma StepMakesNoGhosts(sys: System, step: Step)
    requires LedgerInv(sys) && NoGhosts(sys)
    ensures NoGhosts(Next(sys, step))
  {
    RowsStay(sys, step);
  }

  lemma {:induction false} RunMakesNoGhosts(sys: System, steps: seq<Step>)
    requires LedgerInv(sys) && NoGhosts(sys)
    ensures LedgerInv(Run(sys, steps)) && NoGhosts(Run(sys, steps))
    decreases |steps|
  {
    if steps != [] {
      StepKeepsLedger(sys, steps[0]);
      StepMakesNoGhosts(sys, steps[0]);
      RunMakesNoGhosts(Next(sys, steps[0]), steps[1..]);
    }
  }

  lemma StepLeavesUntouched(sys: System, step: Step, id: nat)
    requires LedgerInv(sys) && Untouched(sys, id) && step != Approve(id)
    ensures Untouched(Next(sys, step), id)
  {
    UnpaidStays(sys, step, id);
    NeverSentStays(sys, step, id);
  }

  /** Workers load waiting rows only, so none takes up one that is held or rejected. */
  lemma NeverSentStays(sys: System, step: Step, id: nat)
    requires Untouched(sys, id)
    ensures NeverSent(Next(sys, step), id)
  {
    if step.DeadLetter? { DeadLetterNotes(sys, step.id, id); }
  }

  lemma DeadLetterNotes(sys: System, target: nat, id: nat)
    requires Untouched(sys, id)
    ensures NeverSent(DeadLetterStep(sys, target), id)
  {
  }

  /** A rejection is the only transaction that moves the row. */
  lemma UnpaidStays(sys: System, step: Step, id: nat)
    requires LedgerInv(sys) && Untouched(sys, id) && step != Approve(id)
    ensures Unpaid(Next(sys, step).db, id)
  {
    match step
    case Settle(j, aborts) =>
    case Watch(i, head, reply, aborts) => WatchLeavesUnpaid(sys.db, i, head, reply, id);
    case HoldBack(_) => assert NoReviewSeen(sys);
    case _ => UnpaidRowStays(sys, step, id);
  }

  lemma WatchLeavesUnpaid(db: Db, target: nat, head: nat, reply: ChainReply, id: nat)
    requires Unpaid(db, id)
    ensures Unpaid(WatchTx(db, target, head, reply), id)
  {
    var n, reverts := WatchCases(db, target, head, reply);
  }

  lemma UnpaidRowStays(sys: System, step: Step, id: nat)
    requires NoReviewSeen(sys) && Untouched(sys, id) && step != Approve(id) && !step.Settle? && !step.Watch?
    ensures Unpaid(Next(sys, step).db, id)
  {
    DbAfterStep(sys, step);
  }

  lemma {:induction false} RunLeavesUntouched(sys: System, steps: seq<Step>, id: nat)
    requires LedgerInv(sys) && Untouched(sys, id) && Approve(id) !in steps
    ensures Untouched(Run(sys, steps), id)
    decreases |steps|
  {
    if steps != [] {
      StepKeepsLedger(sys, steps[0]);
      StepLeavesUntouched(sys, steps[0], id);
      RunLeavesUntouched(Next(sys, steps[0]), steps[1..], id);
    }
  }

  /**
   * A withdrawal that needs a review is never sent, by any worker, unless an administrator
   * approves it: until then it is held, or rejected.
   */
  lemma ReviewedBeforeSent(before: seq<Step>, id: nat, user: nat, amount: nat, route: Route, after: seq<Step>)
    requires id !in Run(INIT, before).db.rows
    requires id in Next(Run(INIT, before), Request(id, user, amount, route, true)).db.rows && Approve(id) !in after
    ensures
      var sys := Run(Next(Run(INIT, before), Request(id, user, amount, route, true)), after);
      id in sys.db.rows && sys.db.rows[id].status in {Hold, Rejected} && HistoryOf(sys, id).returned == 0
  {
    var sys := Run(INIT, before);
    var requested := Next(sys, Request(id, user, amount, route, true));
    RunMakesNoGhosts(INIT, before);
    StepKeepsLedger(sys, Request(id, user, amount, route, true));
    assert Untouched(requested, id);
    RunLeavesUntouched(requested, after, id);
  }
}
