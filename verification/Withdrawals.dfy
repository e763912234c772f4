/**
 * The life of a withdrawal row: WithdrawController::store, ProcessWithdrawalJob,
 * WatchOnchainConfirmationsJob and the approve/reject actions of WithdrawalResource.
 *
 * `Db` holds the committed rows and each transaction is one function on it. `System` adds
 * the running jobs and history variables; `Next` interleaves any number of workers,
 * dead-letter handlers, watchers and administrators with each other and with the
 * transactions of earning and ads on the same users and ledger.
 */
module Withdrawals {
  import opened Common
  import opened Books

  datatype Status = Queued | Processing | Hold | Broadcast | Sent | Failed | Rejected

  /** `payout_method`; null on legacy rows, and a legacy placeholder no gateway serves. */
  datatype Route = NoMethod | FaucetPay | LegacyOnchain | OnchainTrx | OnchainUsdtTrc20 | OnchainEth | OnchainBtc

  predicate IsOnchain(m: Route) {
    m.LegacyOnchain? || Watched(m)
  }

  /** The methods the confirmation watcher selects. */
  predicate Watched(m: Route) {
    m.OnchainTrx? || m.OnchainUsdtTrc20? || m.OnchainEth? || m.OnchainBtc?
  }

  /** Confirmations a chain must show before a payout counts as final. */
  function Finality(m: Route): nat
    requires Watched(m)
  {
    match m
    case OnchainTrx => 19
    case OnchainUsdtTrc20 => 19
    case OnchainEth => 12
    case OnchainBtc => 3
  }

  datatype Row = Row(
    user: nat,
    amount: nat,
    route: Route,
    status: Status,
    requiresReview: bool,
    attempts: nat,
    confirmationsSeen: nat)

  datatype Db = Db(rows: map<nat, Row>, books: Book)

  // ----- Transactions: the new database, and whether the guarded update matched -----

  function SetStatus(db: Db, id: nat, status: Status): Db
    requires id in db.rows
  {
    db.(rows := db.rows[id := db.rows[id].(status := status)])
  }

  /** A guarded transition that refunds: nothing happens unless the status is in `from`. */
  function RefundTx(db: Db, id: nat, from: set<Status>, to: Status, reason: Reason): (Db, bool) {
    if id !in db.rows || db.rows[id].status !in from then (db, false)
    else
      var row := db.rows[id];
      match Post(db.books, row.user, row.amount, reason, WithdrawalRef(id))
      case Some(refunded) => (SetStatus(db, id, to).(books := refunded), true)
      case None => (db, false)  // the insert threw: rolled back
  }

  /** WithdrawController::store, from the insert on. */
  function RequestTx(db: Db, id: nat, user: nat, amount: nat, route: Route, needsReview: bool): Db {
    if id in db.rows || amount < 1 then db
    else
      var row := Row(user, amount, route, if needsReview then Hold else Queued, needsReview, 0, 0);
      match Post(db.books, user, 0 - amount, WithdrawRequest, WithdrawalRef(id))
      case Some(booked) => Db(db.rows[id := row], booked)
      case None => db
  }

  /** The worker's claim: `queued` or `processing` becomes `processing`. */
  function ClaimTx(db: Db, id: nat): (Db, bool) {
    if id in db.rows && db.rows[id].status in {Queued, Processing} then
      (db.(rows := db.rows[id := db.rows[id].(status := Processing, attempts := db.rows[id].attempts + 1)]), true)
    else (db, false)
  }

  /** The worker's settlement after the gateway said ok. */
  function SettleTx(db: Db, id: nat): (Db, bool) {
    if id in db.rows && db.rows[id].status == Processing && db.rows[id].user in db.books.users then
      var row := db.rows[id];
      var settled := SetStatus(db, id, if IsOnchain(row.route) then Broadcast else Sent);
      (settled.(books := CountPayout(db.books, row.user, row.amount)), true)
    else (db, false)
  }

  /** ProcessWithdrawalJob::markFailedAndRefund. */
  function MarkFailedTx(db: Db, id: nat): (Db, bool) {
    RefundTx(db, id, {Queued, Processing}, Failed, WithdrawRefund)
  }

  /** WatchOnchainConfirmationsJob::refundReverted. */
  function RevertTx(db: Db, id: nat, confirmations: nat): (Db, bool) {
    var (db', done) := RefundTx(db, id, {Broadcast}, Failed, WithdrawRefund);
    if done then (db'.(rows := db'.rows[id := db'.rows[id].(confirmationsSeen := confirmations)]), true)
    else (db', false)
  }

  /** WatchOnchainConfirmationsJob::advanceOrPromote. */
  function AdvanceTx(db: Db, id: nat, confirmations: nat): (Db, bool) {
    if id !in db.rows || !Watched(db.rows[id].route) then (db, false)
    else if confirmations < Finality(db.rows[id].route) then
      (db.(rows := db.rows[id := db.rows[id].(confirmationsSeen := confirmations)]), false)
    else if db.rows[id].status == Broadcast then
      (db.(rows := db.rows[id := db.rows[id].(status := Sent, confirmationsSeen := confirmations)]), true)
    else (db, false)
  }

  /** The administrator's approve action. */
  function ApproveTx(db: Db, id: nat): (Db, bool) {
    if id in db.rows && db.rows[id].status == Hold then
      (db.(rows := db.rows[id := db.rows[id].(status := Queued, requiresReview := false)]), true)
    else (db, false)
  }

  /** The administrator's reject action. */
  function RejectTx(db: Db, id: nat): (Db, bool) {
    var (db', done) := RefundTx(db, id, {Hold, Queued}, Rejected, WithdrawRejected);
    if done then (db'.(rows := db'.rows[id := db'.rows[id].(requiresReview := false)]), true)
    else (db', false)
  }

  /** What a chain reports about a payout; BTC has no revert, an unmined transaction no block. */
  datatype ChainReply = Unknown | Mined(block: nat, reverted: bool)

  /** One watched row: skip, refund a revert, or count confirmations. */
  function WatchTx(db: Db, id: nat, head: nat, reply: ChainReply): Db {
    if id !in db.rows || !Watched(db.rows[id].route) || reply.Unknown? || reply.block == 0 then db
    else
      var confirmations := Max(0, head - reply.block + 1);
      if reply.reverted && !db.rows[id].route.OnchainBtc? then RevertTx(db, id, confirmations).0
      else AdvanceTx(db, id, confirmations).0
  }

  // ----- Interleaving -----

  /** Where a worker stands between two transactions. */
  datatype Pc =
    | Loaded(review: bool)  // it read the row as queued or processing
    | Claimed               // it is about to call the gateway
    | SentOk                // the gateway said ok; not recorded yet
    | SendFailed            // the gateway said no; not recorded yet
    | Ended                 // it returned, threw, or died

  datatype Job = Job(id: nat, pc: Pc)

  /**
   * History variables, per row. `returned`: calls of the gateway that returned normally;
   * `oks`: those that said ok; `moved`: those that said no although the money had moved, as
   * after a timeout in the middle of the request. `lost`: answers that were never recorded.
   * `overlapped`: claims won while another worker was active. `interrupted`: dead letters
   * that refunded the row while a worker was active.
   */
  datatype History = History(returned: nat, oks: nat, moved: nat, lost: nat, overlapped: nat, interrupted: nat)

  datatype System = System(db: Db, jobs: map<nat, Job>, history: map<nat, History>, settled: seq<nat>)

  datatype Step =
    | Register(user: nat, referrer: Option<nat>)
    | Request(id: nat, user: nat, amount: nat, route: Route, needsReview: bool)
    | Load(job: nat, id: nat)       // the worker's first query
    | HoldBack(job: nat)            // the unguarded write of `hold`
    | Claim(job: nat)
    | SendUnreachable(job: nat)     // thrown before anything reached the wire
    | SendOk(job: nat)
    | SendRefused(job: nat, moved: bool)
    | Settle(job: nat, aborts: bool)
    | Crash(job: nat)
    | DeadLetter(id: nat, aborts: bool)
    | Watch(id: nat, head: nat, reply: ChainReply, aborts: bool)
    | Approve(id: nat)
    | Reject(id: nat, aborts: bool)
    | PostElsewhere(payee: nat, delta: int, reason: Reason, ref: Ref)  // a ledger row of earning or ads

  const INIT := System(Db(map[], BLANK), map[], map[], [])

  function HistoryOf(sys: System, id: nat): History {
    if id in sys.history then sys.history[id] else History(0, 0, 0, 0, 0, 0)
  }

  predicate At(sys: System, job: nat, pc: Pc) {
    job in sys.jobs && sys.jobs[job].pc == pc
  }

  function Goto(sys: System, job: nat, pc: Pc): System
    requires job in sys.jobs
  {
    sys.(jobs := sys.jobs[job := sys.jobs[job].(pc := pc)])
  }

  /** A worker that has claimed its row and not yet recorded the outcome. */
  predicate Active(j: Job) {
    j.pc in {Claimed, SentOk, SendFailed}
  }

  function ActiveOn(jobs: map<nat, Job>, id: nat): set<nat> {
    set j | j in jobs && jobs[j].id == id && Active(jobs[j])
  }

  function Note(sys: System, id: nat, h: History): System {
    sys.(history := sys.history[id := h])
  }

  /** Count an overlap when a worker is already active on the row. */
  function NoteOverlap(sys: System, id: nat): System {
    var h := HistoryOf(sys, id);
    if ActiveOn(sys.jobs, id) == {} then sys else Note(sys, id, h.(overlapped := h.overlapped + 1))
  }

  function NoteInterrupt(sys: System, id: nat): System {
    var h := HistoryOf(sys, id);
    if ActiveOn(sys.jobs, id) == {} then sys else Note(sys, id, h.(interrupted := h.interrupted + 1))
  }

  function NoteLost(sys: System, id: nat): System {
    var h := HistoryOf(sys, id);
    Note(sys, id, h.(lost := h.lost + 1))
  }

  function NoteOk(sys: System, id: nat): System {
    var h := HistoryOf(sys, id);
    Note(sys, id, h.(returned := h.returned + 1, oks := h.oks + 1))
  }

  function NoteRefusal(sys: System, id: nat, moved: bool): System {
    var h := HistoryOf(sys, id);
    Note(sys, id, h.(returned := h.returned + 1, moved := h.moved + if moved then 1 else 0))
  }

  /** The worker's claim. */
  function ClaimStep(sys: System, job: nat): System {
    if !At(sys, job, Loaded(false)) then sys
    else
      var id := sys.jobs[job].id;
      var (db', done) := ClaimTx(sys.db, id);
      if done then Goto(NoteOverlap(sys, id).(db := db'), job, Claimed) else Goto(sys, job, Ended)
  }

  /** The transaction in which a worker records the gateway's reply. */
  function SettleStep(sys: System, job: nat, aborts: bool): System {
    if !At(sys, job, SentOk) && !At(sys, job, SendFailed) then sys
    else
      var id := sys.jobs[job].id;
      if aborts then Goto(NoteLost(sys, id), job, Ended)
      else if sys.jobs[job].pc == SentOk then
        var (db', done) := SettleTx(sys.db, id);
        Goto(sys.(db := db', settled := if done then sys.settled + [id] else sys.settled), job, Ended)
      else Goto(sys.(db := MarkFailedTx(sys.db, id).0), job, Ended)
  }

  /** A worker dies; the reply it held is lost. */
  function CrashStep(sys: System, job: nat): System {
    if job !in sys.jobs then sys
    else if sys.jobs[job].pc in {SentOk, SendFailed} then Goto(NoteLost(sys, sys.jobs[job].id), job, Ended)
    else Goto(sys, job, Ended)
  }

  /** ProcessWithdrawalJob::failed. */
  function DeadLetterStep(sys: System, id: nat): System {
    var (db', done) := MarkFailedTx(sys.db, id);
    if done then NoteInterrupt(sys, id).(db := db') else sys
  }

  /** One transaction of one process; a step that is not enabled changes nothing. */
  function Next(sys: System, step: Step): System {
    match step
    case Register(u, referrer) => sys.(db := sys.db.(books := Enroll(sys.db.books, u, referrer)))
    case Request(id, u, amount, route, needsReview) =>
      sys.(db := RequestTx(sys.db, id, u, amount, route, needsReview))
    case Load(j, id) =>
      if (j in sys.jobs && sys.jobs[j].pc != Ended) || id !in sys.db.rows
        || sys.db.rows[id].status !in {Queued, Processing} then sys
      else sys.(jobs := sys.jobs[j := Job(id, Loaded(sys.db.rows[id].requiresReview))])
    case HoldBack(j) =>
      if !At(sys, j, Loaded(true)) || sys.jobs[j].id !in sys.db.rows then sys
      else Goto(sys.(db := SetStatus(sys.db, sys.jobs[j].id, Hold)), j, Ended)
    case Claim(j) => ClaimStep(sys, j)
    case SendUnreachable(j) =>
      if !At(sys, j, Claimed) then sys else Goto(sys, j, Ended)
    case SendOk(j) =>
      if !At(sys, j, Claimed) then sys else Goto(NoteOk(sys, sys.jobs[j].id), j, SentOk)
    case SendRefused(j, moved) =>
      if !At(sys, j, Claimed) then sys else Goto(NoteRefusal(sys, sys.jobs[j].id, moved), j, SendFailed)
    case Settle(j, aborts) => SettleStep(sys, j, aborts)
    case Crash(j) => CrashStep(sys, j)
    case DeadLetter(id, aborts) => if aborts then sys else DeadLetterStep(sys, id)
    case Watch(id, head, reply, aborts) =>
      if aborts then sys else sys.(db := WatchTx(sys.db, id, head, reply))
    case Approve(id) => sys.(db := ApproveTx(sys.db, id).0)
    case Reject(id, aborts) =>
      if aborts then sys else sys.(db := RejectTx(sys.db, id).0)
    case PostElsewhere(u, delta, reason, ref) =>
      if AreaOf(reason) == Payouts || AreaOfRef(ref) == Payouts then sys
      else sys.(db := sys.db.(books := PostOrKeep(sys.db.books, u, delta, reason, ref)))
  }

  function Run(sys: System, steps: seq<Step>): System
    decreases |steps|
  {
    if steps == [] then sys else Run(Next(sys, steps[0]), steps[1..])
  }

  lemma {:induction false} RunAppend(sys: System, a: seq<Step>, b: seq<Step>)
    ensures Run(sys, a + b) == Run(Run(sys, a), b)
    decreases |a|
  {
    if a == [] {
      assert a + b == b;
    } else {
      assert (a + b)[1..] == a[1..] + b;
      RunAppend(Next(sys, a[0]), a[1..], b);
    }
  }

  lemma RunOne(sys: System, step: Step)
    ensures Run(sys, [step]) == Next(sys, step)
  {
    assert Run(Next(sys, step), [step][1..]) == Next(sys, step);
  }

  lemma RunThree(sys: System, a: Step, b: Step, c: Step)
    ensures Run(sys, [a, b, c]) == Next(Next(Next(sys, a), b), c)
  {
    assert [a, b, c][1..] == [b, c] && [b, c][1..] == [c] && [c][1..] == [];
    assert Run(Next(Next(sys, a), b), [c]) == Next(Next(Next(sys, a), b), c);
  }
}
