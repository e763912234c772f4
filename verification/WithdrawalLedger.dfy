/** Refunds, balances and finality of withdrawals over every interleaving. */
module WithdrawalLedger {
  import opened Common
  import opened Books
  import opened Withdrawals

  /** The ledger rows that refer to one withdrawal, in order. */
  function EntriesFor(ledger: seq<LedgerRow>, id: nat): seq<LedgerRow> {
    if ledger == [] then []
    else
      var last := ledger[|ledger| - 1];
      EntriesFor(ledger[..|ledger| - 1], id) + (if last.ref == WithdrawalRef(id) then [last] else [])
  }

  lemma EntriesAppend(ledger: seq<LedgerRow>, row: LedgerRow, id: nat)
    ensures EntriesFor(ledger + [row], id)
      == EntriesFor(ledger, id) + (if row.ref == WithdrawalRef(id) then [row] else [])
  {
    assert (ledger + [row])[..|ledger|] == ledger;
  }

  /** The UNIQUE index sees a withdrawal only through its own rows. */
  lemma {:induction false} IndexSeesEntries(ledger: seq<LedgerRow>, reason: Reason, id: nat)
    ensures IndexFree(ledger, reason, WithdrawalRef(id))
      <==> forall row :: row in EntriesFor(ledger, id) ==> row.reason != reason
  {
    if ledger != [] {
      var front, last := ledger[..|ledger| - 1], ledger[|ledger| - 1];
      IndexSeesEntries(front, reason, id);
      assert ledger == front + [last];
      IndexAppend(front, last, reason, WithdrawalRef(id));
    }
  }

  // ----- Invariant of the database -----

  /** All a withdrawal ever writes to the ledger, read off its current status. */
  function Journal(rows: map<nat, Row>, id: nat): seq<LedgerRow> {
    if id !in rows then []
    else
      var row := rows[id];
      [LedgerRow(row.user, 0 - row.amount, WithdrawRequest, WithdrawalRef(id))]
      + (match row.status
         case Failed => [LedgerRow(row.user, row.amount, WithdrawRefund, WithdrawalRef(id))]
         case Rejected => [LedgerRow(row.user, row.amount, WithdrawRejected, WithdrawalRef(id))]
         case _ => [])
  }

  ghost predicate Journaled(db: Db) {
    forall id: nat :: EntriesFor(db.books.ledger, id) == Journal(db.rows, id)
  }

  /** Foreign keys, and the review flag only ever rides on held rows. */
  ghost predicate RowsSane(db: Db) {
    forall id :: id in db.rows ==>
      && db.rows[id].user in db.books.users
      && (db.rows[id].requiresReview ==> db.rows[id].status == Hold)
  }

  ghost predicate DbInv(db: Db) {
    Journaled(db) && Consistent(db.books) && RowsSane(db)
  }

  /** Nobody joins or leaves, and nobody's withdrawn total changes. */
  ghost predicate SameWithdrawn(books: Book, books': Book) {
    && books'.users.Keys == books.users.Keys
    && forall u :: u in books.users ==> books'.users[u].totalWithdrawn == books.users[u].totalWithdrawn
  }

  /** A refund from a consistent database always commits when its status guard matches. */
  lemma RefundCommits(db: Db, id: nat, from: set<Status>, to: Status, reason: Reason)
    requires DbInv(db) && Failed !in from && Rejected !in from && reason in {WithdrawRefund, WithdrawRejected}
    ensures
      var (db', done) := RefundTx(db, id, from, to, reason);
      && (done <==> id in db.rows && db.rows[id].status in from)
      && (!done ==> db' == db)
      && (done ==>
            && db'.rows == db.rows[id := db.rows[id].(status := to)]
            && db'.books.ledger
              == db.books.ledger + [LedgerRow(db.rows[id].user, db.rows[id].amount, reason, WithdrawalRef(id))]
            && SameWithdrawn(db.books, db'.books)
            && Consistent(db'.books))
  {
    if id in db.rows && db.rows[id].status in from {
      IndexSeesEntries(db.books.ledger, reason, id);
      assert EntriesFor(db.books.ledger, id) == Journal(db.rows, id);
      PostKeepsBooks(db.books, db.rows[id].user, db.rows[id].amount, reason, WithdrawalRef(id));
    }
  }

  lemma JournalAfterRefund(db: Db, db': Db, id: nat, reason: Reason)
    requires Journaled(db) && id in db.rows && id in db'.rows
    requires db.rows[id].status !in {Failed, Rejected}
    requires db'.rows[id].user == db.rows[id].user && db'.rows[id].amount == db.rows[id].amount
    requires db'.rows == db.rows[id := db'.rows[id]]
    requires db'.books.ledger
      == db.books.ledger + [LedgerRow(db.rows[id].user, db.rows[id].amount, reason, WithdrawalRef(id))]
    requires (db'.rows[id].status == Failed && reason == WithdrawRefund)
      || (db'.rows[id].status == Rejected && reason == WithdrawRejected)
    ensures Journaled(db')
  {
    forall i: nat ensures EntriesFor(db'.books.ledger, i) == Journal(db'.rows, i) {
      EntriesAppend(db.books.ledger, LedgerRow(db.rows[id].user, db.rows[id].amount, reason, WithdrawalRef(id)), i);
      assert EntriesFor(db.books.ledger, i) == Journal(db.rows, i);
    }
  }

  /** A change of one row that writes no ledger row and moves between unrefunded statuses. */
  lemma JournalUnchanged(db: Db, db': Db, id: nat)
    requires Journaled(db) && id in db.rows && id in db'.rows && db'.books.ledger == db.books.ledger
    requires db'.rows == db.rows[id := db'.rows[id]]
    requires db'.rows[id].user == db.rows[id].user && db'.rows[id].amount == db.rows[id].amount
    requires db'.rows[id].status == db.rows[id].status
      || (db.rows[id].status !in {Failed, Rejected} && db'.rows[id].status !in {Failed, Rejected})
    ensures Journaled(db')
  {
    forall i: nat ensures EntriesFor(db'.books.ledger, i) == Journal(db'.rows, i) {
      assert EntriesFor(db.books.ledger, i) == Journal(db.rows, i);
    }
  }

  lemma MarkFailedKeepsInv(db: Db, id: nat)
    requires DbInv(db)
    ensures DbInv(MarkFailedTx(db, id).0)
  {
    RefundCommits(db, id, {Queued, Processing}, Failed, WithdrawRefund);
    if MarkFailedTx(db, id).1 { JournalAfterRefund(db, MarkFailedTx(db, id).0, id, WithdrawRefund); }
  }

  lemma RevertKeepsInv(db: Db, id: nat, confirmations: nat)
    requires DbInv(db)
    ensures DbInv(RevertTx(db, id, confirmations).0)
  {
    RefundCommits(db, id, {Broadcast}, Failed, WithdrawRefund);
    if RevertTx(db, id, confirmations).1 {
      JournalAfterRefund(db, RevertTx(db, id, confirmations).0, id, WithdrawRefund);
    }
  }

  lemma RejectKeepsInv(db: Db, id: nat)
    requires DbInv(db)
    ensures DbInv(RejectTx(db, id).0)
  {
    RefundCommits(db, id, {Hold, Queued}, Rejected, WithdrawRejected);
    if RejectTx(db, id).1 { JournalAfterRefund(db, RejectTx(db, id).0, id, WithdrawRejected); }
  }

  lemma AdvanceKeepsInv(db: Db, id: nat, confirmations: nat)
    requires DbInv(db)
    ensures DbInv(AdvanceTx(db, id, confirmations).0)
  {
    if id in db.rows { JournalUnchanged(db, AdvanceTx(db, id, confirmations).0, id); }
  }

  /** A watched row is left alone, refunded, or advanced. */
  lemma WatchCases(db: Db, id: nat, head: nat, reply: ChainReply) returns (n: nat, reverts: bool)
    ensures WatchTx(db, id, head, reply) == db
      || WatchTx(db, id, head, reply) == (if reverts then RevertTx(db, id, n) else AdvanceTx(db, id, n)).0
  {
    n, reverts := 0, false;
    if id in db.rows && reply.Mined? {
      n, reverts := Max(0, head - reply.block + 1), reply.reverted && !db.rows[id].route.OnchainBtc?;
    }
  }

  lemma WatchKeepsInv(db: Db, id: nat, head: nat, reply: ChainReply)
    requires DbInv(db)
    ensures DbInv(WatchTx(db, id, head, reply))
  {
    var n, reverts := WatchCases(db, id, head, reply);
    if reverts { RevertKeepsInv(db, id, n); } else { AdvanceKeepsInv(db, id, n); }
  }

  lemma ClaimKeepsInv(db: Db, id: nat)
    requires DbInv(db)
    ensures DbInv(ClaimTx(db, id).0)
  {
    if ClaimTx(db, id).1 { JournalUnchanged(db, ClaimTx(db, id).0, id); }
  }

  lemma ApproveKeepsInv(db: Db, id: nat)
    requires DbInv(db)
    ensures DbInv(ApproveTx(db, id).0)
  {
    if ApproveTx(db, id).1 { JournalUnchanged(db, ApproveTx(db, id).0, id); }
  }

  lemma SettleKeepsInv(db: Db, id: nat)
    requires DbInv(db)
    ensures DbInv(SettleTx(db, id).0)
  {
    if SettleTx(db, id).1 {
      JournalUnchanged(db, SettleTx(db, id).0, id);
      CountPayoutKeepsBooks(db.books, db.rows[id].user, db.rows[id].amount);
    }
  }

  lemma RequestKeepsInv(db: Db, id: nat, user: nat, amount: nat, route: Route, needsReview: bool)
    requires DbInv(db)
    ensures DbInv(RequestTx(db, id, user, amount, route, needsReview))
  {
    var db' := RequestTx(db, id, user, amount, route, needsReview);
    if db' != db {
      PostKeepsBooks(db.books, user, 0 - amount, WithdrawRequest, WithdrawalRef(id));
      JournalAfterRequest(db, db', id);
    }
  }

  lemma JournalAfterRequest(db: Db, db': Db, id: nat)
    requires Journaled(db) && id !in db.rows && id in db'.rows && db'.rows == db.rows[id := db'.rows[id]]
    requires db'.rows[id].status in {Hold, Queued}
    requires db'.books.ledger
      == db.books.ledger + [LedgerRow(db'.rows[id].user, 0 - db'.rows[id].amount, WithdrawRequest, WithdrawalRef(id))]
    ensures Journaled(db')
  {
    forall i: nat ensures EntriesFor(db'.books.ledger, i) == Journal(db'.rows, i) {
      EntriesAppend(db.books.ledger,
        LedgerRow(db'.rows[id].user, 0 - db'.rows[id].amount, WithdrawRequest, WithdrawalRef(id)), i);
      assert EntriesFor(db.books.ledger, i) == Journal(db.rows, i);
    }
  }

  lemma RegisterKeepsInv(db: Db, user: nat, referrer: Option<nat>)
    requires DbInv(db)
    ensures DbInv(db.(books := Enroll(db.books, user, referrer)))
  {
    EnrollKeepsBooks(db.books, user, referrer);
    forall i: nat ensures EntriesFor(db.books.ledger, i) == Journal(db.rows, i) {
    }
  }

  /** A row of another area belongs to no withdrawal. */
  lemma ElsewhereKeepsInv(db: Db, user: nat, delta: int, reason: Reason, ref: Ref)
    requires DbInv(db) && AreaOfRef(ref) != Payouts
    ensures DbInv(db.(books := PostOrKeep(db.books, user, delta, reason, ref)))
  {
    var db' := db.(books := PostOrKeep(db.books, user, delta, reason, ref));
    PostKeepsBooks(db.books, user, delta, reason, ref);
    forall i: nat ensures EntriesFor(db'.books.ledger, i) == Journal(db'.rows, i) {
      EntriesAppend(db.books.ledger, LedgerRow(user, delta, reason, ref), i);
      assert EntriesFor(db.books.ledger, i) == Journal(db.rows, i);
    }
  }

  // ----- Invariant of the whole system -----

  /** No worker ever sees the review flag, so the unguarded write of `hold` never runs. */
  ghost predicate NoReviewSeen(sys: System) {
    forall j :: j in sys.jobs ==> sys.jobs[j].pc != Loaded(true)
  }

  ghost predicate LedgerInv(sys: System) {
    DbInv(sys.db) && NoReviewSeen(sys)
  }

  lemma StepKeepsReviewUnseen(sys: System, step: Step)
    requires LedgerInv(sys)
    ensures NoReviewSeen(Next(sys, step))
  {
  }

  lemma RecordKeepsDb(sys: System, j: nat, aborts: bool)
    requires DbInv(sys.db)
    ensures DbInv(SettleStep(sys, j, aborts).db)
  {
    if j in sys.jobs {
      SettleKeepsInv(sys.db, sys.jobs[j].id);
      MarkFailedKeepsInv(sys.db, sys.jobs[j].id);
    }
  }

  lemma ClaimKeepsDb(sys: System, j: nat)
    requires DbInv(sys.db)
    ensures DbInv(ClaimStep(sys, j).db)
  {
    if j in sys.jobs { ClaimKeepsInv(sys.db, sys.jobs[j].id); }
  }

  /** The steps of a worker that write no row. */
  lemma WorkerLeavesDb(sys: System, step: Step)
    requires NoReviewSeen(sys)
    requires step.Load? || step.HoldBack? || step.SendUnreachable? || step.SendOk? || step.SendRefused? || step.Crash?
    ensures Next(sys, step).db == sys.db
  {
  }

  lemma StepKeepsLedger(sys: System, step: Step)
    requires LedgerInv(sys)
    ensures LedgerInv(Next(sys, step))
  {
    StepKeepsReviewUnseen(sys, step);
    match step
    case Register(u, referrer) => RegisterKeepsInv(sys.db, u, referrer);
    case PostElsewhere(u, delta, reason, ref) =>
      if AreaOfRef(ref) != Payouts { ElsewhereKeepsInv(sys.db, u, delta, reason, ref); }
    case Request(id, u, amount, route, needsReview) =>
      RequestKeepsInv(sys.db, id, u, amount, route, needsReview);
    case Claim(j) => ClaimKeepsDb(sys, j);
    case Settle(j, aborts) => RecordKeepsDb(sys, j, aborts);
    case DeadLetter(id, aborts) => MarkFailedKeepsInv(sys.db, id);
    case Watch(id, head, reply, aborts) => WatchKeepsInv(sys.db, id, head, reply);
    case Approve(id) => ApproveKeepsInv(sys.db, id);
    case Reject(id, aborts) => RejectKeepsInv(sys.db, id);
    case _ => WorkerLeavesDb(sys, step);
  }

  lemma {:induction false} RunKeepsLedger(sys: System, steps: seq<Step>)
    requires LedgerInv(sys)
    ensures LedgerInv(Run(sys, steps))
    decreases |steps|
  {
    if steps != [] {
      StepKeepsLedger(sys, steps[0]);
      RunKeepsLedger(Next(sys, steps[0]), steps[1..]);
    }
  }

  // ----- Status transitions -----

  /** The transitions a row can make; `failed`, `rejected` and `sent` have none. */
  predicate Edge(from: Status, to: Status) {
    match from
    case Hold => to in {Queued, Rejected}
    case Queued => to in {Processing, Rejected, Failed}
    case Processing => to in {Broadcast, Sent, Failed}
    case Broadcast => to in {Sent, Failed}
    case _ => false
  }

  function Rank(status: Status): nat {
    match status
    case Hold => 0
    case Queued => 1
    case Processing => 2
    case Broadcast => 3
    case _ => 4
  }

  /** The step records a payout that the gateway confirmed to a worker. */
  predicate Settles(sys: System, step: Step, id: nat) {
    && step.Settle? && !step.aborts && At(sys, step.job, SentOk)
    && sys.jobs[step.job].id == id && SettleTx(sys.db, id).1
  }

  /** A row keeps its owner, amount and route, and its status follows `Edge`. */
  ghost predicate Follows(db: Db, db': Db, id: nat)
    requires id in db.rows
  {
    && id in db'.rows
    && var row, row' := db.rows[id], db'.rows[id];
    && row'.user == row.user && row'.amount == row.amount && row'.route == row.route
    && (row'.status == row.status || Edge(row.status, row'.status))
  }

  /** Nothing settles: no row leaves `processing` for a paid status, no counter moves. */
  ghost predicate Quiet(db: Db, db': Db) {
    && (forall id :: id in db.rows ==>
          Follows(db, db', id) && (db.rows[id].status == Processing ==> db'.rows[id].status !in {Broadcast, Sent}))
    && (forall id :: id in db'.rows && id !in db.rows ==> db'.rows[id].status in {Queued, Hold})
    && (forall u :: u in db.books.users ==>
          u in db'.books.users && db'.books.users[u].totalWithdrawn == db.books.users[u].totalWithdrawn)
    && (forall u :: u in db'.books.users && u !in db.books.users ==> db'.books.users[u].totalWithdrawn == 0)
  }

  /** A quiet change that also leaves every broadcast row alone. */
  ghost predicate Calm(db: Db, db': Db) {
    Quiet(db, db') && forall id :: id in db.rows && db.rows[id].status == Broadcast ==> db'.rows[id] == db.rows[id]
  }

  lemma RefundIsQuiet(db: Db, id: nat, from: set<Status>, to: Status, reason: Reason)
    requires DbInv(db) && Failed !in from && Rejected !in from && reason in {WithdrawRefund, WithdrawRejected}
    requires to in {Failed, Rejected} && forall status :: status in from ==> Edge(status, to)
    ensures Quiet(db, RefundTx(db, id, from, to, reason).0)
    ensures Broadcast !in from ==> Calm(db, RefundTx(db, id, from, to, reason).0)
  {
    RefundCommits(db, id, from, to, reason);
    if RefundTx(db, id, from, to, reason).1 {
      EdgeIsQuiet(db, RefundTx(db, id, from, to, reason).0, id, to);
    }
  }

  /** A refunding transition of one row is quiet. */
  lemma EdgeIsQuiet(db: Db, db': Db, id: nat, to: Status)
    requires id in db.rows && Edge(db.rows[id].status, to) && to in {Failed, Rejected}
    requires db'.rows == db.rows[id := db.rows[id].(status := to)] && SameWithdrawn(db.books, db'.books)
    ensures Quiet(db, db')
    ensures db.rows[id].status != Broadcast ==> Calm(db, db')
  {
  }

  lemma RevertIsQuiet(db: Db, id: nat, confirmations: nat)
    requires DbInv(db)
    ensures Quiet(db, RevertTx(db, id, confirmations).0)
  {
    RefundIsQuiet(db, id, {Broadcast}, Failed, WithdrawRefund);
    RefundCommits(db, id, {Broadcast}, Failed, WithdrawRefund);
  }

  lemma AdvanceIsQuiet(db: Db, id: nat, confirmations: nat)
    ensures Quiet(db, AdvanceTx(db, id, confirmations).0)
  {
  }

  lemma WatchIsQuiet(db: Db, id: nat, head: nat, reply: ChainReply)
    requires DbInv(db)
    ensures Quiet(db, WatchTx(db, id, head, reply))
  {
    var n, reverts := WatchCases(db, id, head, reply);
    if reverts { RevertIsQuiet(db, id, n); } else { AdvanceIsQuiet(db, id, n); }
  }

  lemma RejectIsCalm(db: Db, id: nat)
    requires DbInv(db)
    ensures Calm(db, RejectTx(db, id).0)
  {
    RefundIsQuiet(db, id, {Hold, Queued}, Rejected, WithdrawRejected);
    RefundCommits(db, id, {Hold, Queued}, Rejected, WithdrawRejected);
  }

  lemma ClaimAndApproveAreCalm(db: Db, id: nat)
    ensures Calm(db, ClaimTx(db, id).0) && Calm(db, ApproveTx(db, id).0)
  {
  }

  lemma RequestIsCalm(db: Db, id: nat, user: nat, amount: nat, route: Route, needsReview: bool)
    ensures Calm(db, RequestTx(db, id, user, amount, route, needsReview))
  {
  }

  /** The step is a settlement that commits. */
  predicate Records(sys: System, step: Step) {
    step.Settle? && step.job in sys.jobs && Settles(sys, step, sys.jobs[step.job].id)
  }

  /** The database after a step that neither settles nor watches. */
  function DbAfter(sys: System, step: Step): Db {
    match step
    case Register(u, referrer) => sys.db.(books := Enroll(sys.db.books, u, referrer))
    case Request(id, u, amount, route, needsReview) => RequestTx(sys.db, id, u, amount, route, needsReview)
    case Claim(j) => if At(sys, j, Loaded(false)) then ClaimTx(sys.db, sys.jobs[j].id).0 else sys.db
    case Settle(j, aborts) =>
      if At(sys, j, SendFailed) && !aborts then MarkFailedTx(sys.db, sys.jobs[j].id).0 else sys.db
    case DeadLetter(id, aborts) => if aborts then sys.db else MarkFailedTx(sys.db, id).0
    case Approve(id) => ApproveTx(sys.db, id).0
    case Reject(id, aborts) => if aborts then sys.db else RejectTx(sys.db, id).0
    case PostElsewhere(u, delta, reason, ref) =>
      if AreaOf(reason) == Payouts || AreaOfRef(ref) == Payouts then sys.db
      else sys.db.(books := PostOrKeep(sys.db.books, u, delta, reason, ref))
    case _ => sys.db
  }

  lemma DbAfterStep(sys: System, step: Step)
    requires NoReviewSeen(sys) && !Records(sys, step) && !step.Watch?
    ensures Next(sys, step).db == DbAfter(sys, step)
  {
  }

  lemma OtherStepsSettleNothing(sys: System, step: Step)
    requires !Records(sys, step)
    ensures Next(sys, step).settled == sys.settled
  {
  }

  lemma OtherStepsAreCalm(sys: System, step: Step)
    requires LedgerInv(sys) && !Records(sys, step) && !step.Watch?
    ensures Calm(sys.db, Next(sys, step).db)
  {
    DbAfterStep(sys, step);
    match step
    case Request(id, u, amount, route, needsReview) =>
      RequestIsCalm(sys.db, id, u, amount, route, needsReview);
    case Claim(j) =>
      if j in sys.jobs { ClaimAndApproveAreCalm(sys.db, sys.jobs[j].id); }
    case Settle(j, aborts) =>
      if j in sys.jobs { RefundIsQuiet(sys.db, sys.jobs[j].id, {Queued, Processing}, Failed, WithdrawRefund); }
    case DeadLetter(i, aborts) => RefundIsQuiet(sys.db, i, {Queued, Processing}, Failed, WithdrawRefund);
    case Approve(i) => ClaimAndApproveAreCalm(sys.db, i);
    case Reject(i, aborts) => RejectIsCalm(sys.db, i);
    case _ =>
  }

  lemma OtherStepsAreQuiet(sys: System, step: Step)
    requires LedgerInv(sys) && !Records(sys, step)
    ensures Quiet(sys.db, Next(sys, step).db)
  {
    if step.Watch? {
      WatchIsQuiet(sys.db, step.id, step.head, step.reply);
    } else {
      OtherStepsAreCalm(sys, step);
    }
  }

  /** A settlement moves its own row and its owner's counter, and nothing else. */
  lemma SettlementMoves(sys: System, step: Step, id: nat)
    requires Settles(sys, step, id)
    ensures
      var sys' := Next(sys, step);
      && id in sys.db.rows && sys.db.rows[id].status == Processing && sys.db.rows[id].user in sys.db.books.users
      && var row := sys.db.rows[id];
      && sys'.db.rows == sys.db.rows[id := row.(status := if IsOnchain(row.route) then Broadcast else Sent)]
      && sys'.db.books == CountPayout(sys.db.books, row.user, row.amount)
      && sys'.settled == sys.settled + [id]
  {
  }

  lemma StepFollowsEdges(sys: System, step: Step, id: nat)
    requires LedgerInv(sys) && id in sys.db.rows
    ensures Follows(sys.db, Next(sys, step).db, id)
  {
    if Records(sys, step) {
      SettlementMoves(sys, step, sys.jobs[step.job].id);
    } else {
      OtherStepsAreQuiet(sys, step);
    }
  }

  /** How often a row changes status along a run. */
  function StatusChanges(sys: System, steps: seq<Step>, id: nat): nat
    decreases |steps|
  {
    if steps == [] then 0
    else
      var sys' := Next(sys, steps[0]);
      (if id in sys.db.rows && id in sys'.db.rows && sys.db.rows[id].status != sys'.db.rows[id].status then 1 else 0)
      + StatusChanges(sys', steps[1..], id)
  }

  /** Every status change climbs, so no run changes a row's status more than four times. */
  lemma {:induction false} StatusChangesAreBounded(sys: System, steps: seq<Step>, id: nat)
    requires LedgerInv(sys) && id in sys.db.rows
    ensures id in Run(sys, steps).db.rows
    ensures StatusChanges(sys, steps, id) + Rank(sys.db.rows[id].status)
      <= Rank(Run(sys, steps).db.rows[id].status) <= 4
    decreases |steps|
  {
    if steps != [] {
      StepFollowsEdges(sys, steps[0], id);
      StepKeepsLedger(sys, steps[0]);
      StatusChangesAreBounded(Next(sys, steps[0]), steps[1..], id);
    }
  }

  /** `failed`, `rejected` and `sent` are absorbing over every further run. */
  lemma {:induction false} TerminalStatusesAbsorb(sys: System, steps: seq<Step>, id: nat)
    requires LedgerInv(sys) && id in sys.db.rows && sys.db.rows[id].status in {Failed, Rejected, Sent}
    ensures id in Run(sys, steps).db.rows && Run(sys, steps).db.rows[id].status == sys.db.rows[id].status
    decreases |steps|
  {
    if steps != [] {
      StepFollowsEdges(sys, steps[0], id);
      StepKeepsLedger(sys, steps[0]);
      TerminalStatusesAbsorb(Next(sys, steps[0]), steps[1..], id);
    }
  }

  /** The row enters a status. */
  predicate Reaches(db: Db, db': Db, id: nat, status: Status) {
    id in db.rows && id in db'.rows && db.rows[id].status != status && db'.rows[id].status == status
  }

  lemma AdvanceSends(db: Db, target: nat, confirmations: nat, id: nat)
    requires Reaches(db, AdvanceTx(db, target, confirmations).0, id, Sent)
    ensures target == id && Watched(db.rows[id].route) && confirmations >= Finality(db.rows[id].route)
  {
  }

  lemma RevertNeverSends(db: Db, target: nat, confirmations: nat, id: nat)
    requires DbInv(db)
    ensures !Reaches(db, RevertTx(db, target, confirmations).0, id, Sent)
  {
    RefundCommits(db, target, {Broadcast}, Failed, WithdrawRefund);
  }

  lemma WatchSends(db: Db, target: nat, head: nat, reply: ChainReply, id: nat)
    requires DbInv(db) && Reaches(db, WatchTx(db, target, head, reply), id, Sent)
    ensures
      && target == id && reply.Mined? && Watched(db.rows[id].route) && reply.block > 0
      && head - reply.block + 1 >= Finality(db.rows[id].route)
      && (!reply.reverted || db.rows[id].route.OnchainBtc?)
  {
    var confirmations := Max(0, head - reply.block + 1);
    if reply.reverted && !db.rows[target].route.OnchainBtc? {
      RevertNeverSends(db, target, confirmations, id);
    } else {
      AdvanceSends(db, target, confirmations, id);
    }
  }

  lemma CalmNeverSends(db: Db, db': Db, id: nat)
    requires Calm(db, db')
    ensures !Reaches(db, db', id, Sent)
  {
    if id in db.rows { assert Follows(db, db', id); }
  }

  lemma SettlementSendsOffchain(sys: System, step: Step, id: nat)
    requires Records(sys, step) && Reaches(sys.db, Next(sys, step).db, id, Sent)
    ensures !IsOnchain(sys.db.rows[id].route)
  {
    SettlementMoves(sys, step, sys.jobs[step.job].id);
  }

  /**
   * An on-chain row becomes `sent` only when the watcher counted at least 3 confirmations on
   * Bitcoin, 12 on Ethereum and 19 on Tron for a transaction that did not revert.
   */
  lemma SentMeansFinal(sys: System, step: Step, id: nat)
    requires LedgerInv(sys) && Reaches(sys.db, Next(sys, step).db, id, Sent) && IsOnchain(sys.db.rows[id].route)
    ensures
      && step.Watch? && step.id == id && step.reply.Mined? && Watched(sys.db.rows[id].route)
      && step.reply.block > 0
      && (!step.reply.reverted || sys.db.rows[id].route.OnchainBtc?)
      && var seen := step.head - step.reply.block + 1;
      match sys.db.rows[id].route
      case OnchainBtc => seen >= 3
      case OnchainEth => seen >= 12
      case _ => seen >= 19
  {
    if Records(sys, step) {
      SettlementSendsOffchain(sys, step, id);
    } else if step.Watch? {
      WatchSends(sys.db, step.id, step.head, step.reply, id);
    } else {
      OtherStepsAreCalm(sys, step);
      CalmNeverSends(sys.db, Next(sys, step).db, id);
    }
  }

  // ----- What a run guarantees -----

  lemma ReachableIsSane(steps: seq<Step>)
    ensures LedgerInv(Run(INIT, steps))
  {
    RunKeepsLedger(INIT, steps);
  }

  /**
   * The whole ledger trace of a withdrawal: one debit, followed by exactly one refund when
   * the row is `failed`, exactly one when it is `rejected`, and by nothing otherwise.
   */
  lemma RefundedIffFailedOrRejected(steps: seq<Step>, id: nat)
    ensures var db := Run(INIT, steps).db; EntriesFor(db.books.ledger, id) == Journal(db.rows, id)
  {
    ReachableIsSane(steps);
  }

  function Net(entries: seq<LedgerRow>): int {
    if entries == [] then 0 else entries[0].delta + Net(entries[1..])
  }

  /** Money is never created or lost: a withdrawal nets to its debit, or to zero once refunded. */
  lemma WithdrawalNetsOut(steps: seq<Step>, id: nat)
    requires id in Run(INIT, steps).db.rows
    ensures
      var db := Run(INIT, steps).db;
      Net(EntriesFor(db.books.ledger, id))
        == if db.rows[id].status in {Failed, Rejected} then 0 else 0 - db.rows[id].amount
  {
    RefundedIffFailedOrRejected(steps, id);
    var db := Run(INIT, steps).db;
    var entries := EntriesFor(db.books.ledger, id);
    assert Net(entries[1..]) == if |entries| == 2 then entries[1].delta + Net(entries[1..][1..]) else 0;
  }

  /** The index on the ledger is a pure backstop: a matching status guard always refunds. */
  lemma RefundsNeverHitIndex(steps: seq<Step>, id: nat)
    ensures
      var db := Run(INIT, steps).db;
      && (MarkFailedTx(db, id).1 <==> id in db.rows && db.rows[id].status in {Queued, Processing})
      && (RejectTx(db, id).1 <==> id in db.rows && db.rows[id].status in {Hold, Queued})
      && (forall n: nat :: RevertTx(db, id, n).1 <==> id in db.rows && db.rows[id].status == Broadcast)
  {
    ReachableIsSane(steps);
    var db := Run(INIT, steps).db;
    RefundCommits(db, id, {Queued, Processing}, Failed, WithdrawRefund);
    RefundCommits(db, id, {Hold, Queued}, Rejected, WithdrawRejected);
    RefundCommits(db, id, {Broadcast}, Failed, WithdrawRefund);
  }

  // ----- total_withdrawn_sat -----

  function SettledSum(settled: seq<nat>, rows: map<nat, Row>, user: nat): int {
    if settled == [] then 0
    else
      var last := settled[|settled| - 1];
      SettledSum(settled[..|settled| - 1], rows, user)
      + (if last in rows && rows[last].user == user then rows[last].amount else 0)
  }

  ghost predicate SettledOnce(sys: System) {
    && (forall i, j :: 0 <= i < j < |sys.settled| ==> sys.settled[i] != sys.settled[j])
    && (forall id :: id in sys.settled ==>
          id in sys.db.rows && sys.db.rows[id].status in {Broadcast, Sent, Failed})
    && (forall id :: id in sys.db.rows && sys.db.rows[id].status in {Broadcast, Sent} ==> id in sys.settled)
  }

  ghost predicate WithdrawnInv(sys: System) {
    forall u :: u in sys.db.books.users ==>
      sys.db.books.users[u].totalWithdrawn == SettledSum(sys.settled, sys.db.rows, u)
  }

  lemma {:induction false} SettledSumStable(settled: seq<nat>, rows: map<nat, Row>, rows': map<nat, Row>, user: nat)
    requires forall id | id in settled ::
      id in rows && id in rows' && rows'[id].user == rows[id].user && rows'[id].amount == rows[id].amount
    ensures SettledSum(settled, rows', user) == SettledSum(settled, rows, user)
  {
    if settled != [] {
      assert forall id :: id in settled[..|settled| - 1] ==> id in settled;
      SettledSumStable(settled[..|settled| - 1], rows, rows', user);
    }
  }

  lemma {:induction false} StrangerSettlesNothing(settled: seq<nat>, rows: map<nat, Row>, user: nat)
    requires forall id :: id in settled ==> id in rows && rows[id].user != user
    ensures SettledSum(settled, rows, user) == 0
  {
    if settled != [] {
      assert forall id :: id in settled[..|settled| - 1] ==> id in settled;
      StrangerSettlesNothing(settled[..|settled| - 1], rows, user);
    }
  }

  lemma SettlementKeepsWithdrawn(sys: System, step: Step, id: nat)
    requires SettledOnce(sys) && WithdrawnInv(sys) && Settles(sys, step, id)
    ensures SettledOnce(Next(sys, step)) && WithdrawnInv(Next(sys, step))
  {
    SettlementMoves(sys, step, id);
    var sys' := Next(sys, step);
    assert sys'.settled[..|sys.settled|] == sys.settled;
    forall u | u in sys'.db.books.users
      ensures sys'.db.books.users[u].totalWithdrawn == SettledSum(sys'.settled, sys'.db.rows, u)
    {
      SettledSumStable(sys.settled, sys.db.rows, sys'.db.rows, u);
    }
  }

  lemma QuietKeepsWithdrawn(sys: System, sys': System)
    requires SettledOnce(sys) && WithdrawnInv(sys) && RowsSane(sys.db)
    requires Quiet(sys.db, sys'.db) && sys'.settled == sys.settled
    ensures SettledOnce(sys') && WithdrawnInv(sys')
  {
    assert forall id :: id in sys.db.rows ==> Follows(sys.db, sys'.db, id);
    forall u | u in sys'.db.books.users
      ensures sys'.db.books.users[u].totalWithdrawn == SettledSum(sys'.settled, sys'.db.rows, u)
    {
      SettledSumStable(sys.settled, sys.db.rows, sys'.db.rows, u);
      if u !in sys.db.books.users { StrangerSettlesNothing(sys.settled, sys.db.rows, u); }
    }
  }

  lemma StepKeepsWithdrawn(sys: System, step: Step)
    requires LedgerInv(sys) && SettledOnce(sys) && WithdrawnInv(sys)
    ensures SettledOnce(Next(sys, step)) && WithdrawnInv(Next(sys, step))
  {
    if Records(sys, step) {
      SettlementKeepsWithdrawn(sys, step, sys.jobs[step.job].id);
    } else {
      OtherStepsAreQuiet(sys, step);
      OtherStepsSettleNothing(sys, step);
      QuietKeepsWithdrawn(sys, Next(sys, step));
    }
  }

  lemma {:induction false} RunKeepsWithdrawn(sys: System, steps: seq<Step>)
    requires LedgerInv(sys) && SettledOnce(sys) && WithdrawnInv(sys)
    ensures SettledOnce(Run(sys, steps)) && WithdrawnInv(Run(sys, steps))
    decreases |steps|
  {
    if steps != [] {
      StepKeepsLedger(sys, steps[0]);
      StepKeepsWithdrawn(sys, steps[0]);
      RunKeepsWithdrawn(Next(sys, steps[0]), steps[1..]);
    }
  }

  /**
   * `total_withdrawn_sat` is the sum over the user's withdrawals that ever settled, each
   * counted once; they are the rows now broadcast or sent, and the later reverted ones.
   */
  lemma WithdrawnCountsEachSettlementOnce(steps: seq<Step>)
    ensures SettledOnce(Run(INIT, steps)) && WithdrawnInv(Run(INIT, steps))
  {
    RunKeepsWithdrawn(INIT, steps);
  }
}
