/**
 * How often the gateway answers one withdrawal. The worker's claim also accepts rows that are
 * already `processing`, so it does not by itself keep two workers from sending the same row;
 * the bound below says exactly what does.
 */
module WithdrawalSends {
  import opened Common
  import opened Books
  import opened Withdrawals
  import WithdrawalLedger

  /** Workers that may still call the gateway. */
  function Sending(jobs: map<nat, Job>, id: nat): set<nat> {
    set j | j in jobs && jobs[j].id == id && jobs[j].pc == Claimed
  }

  /** The row can be claimed while no worker is active on it. */
  predicate Claimable(sys: System, id: nat) {
    id in sys.db.rows && sys.db.rows[id].status in {Queued, Processing} && ActiveOn(sys.jobs, id) == {}
  }

  /** Sends that returned or still may, against lost replies and overlaps. */
  ghost predicate SendBound(sys: System, id: nat) {
    var h := HistoryOf(sys, id);
    && h.returned + |Sending(sys.jobs, id)| + (if Claimable(sys, id) then 1 else 0) <= 1 + h.lost + h.overlapped
    && h.oks + h.moved <= h.returned
  }

  /** No worker has ever claimed the row, and none will claim it once it is rejected. */
  ghost predicate Unclaimed(db: Db, id: nat) {
    id !in db.rows || db.rows[id].status in {Hold, Queued, Rejected}
  }

  /** An active worker's row has been claimed. */
  ghost predicate ActiveRow(sys: System, j: nat)
    requires j in sys.jobs
  {
    Active(sys.jobs[j]) ==> !Unclaimed(sys.db, sys.jobs[j].id)
  }

  ghost predicate SendInv(sys: System) {
    && WithdrawalLedger.LedgerInv(sys)
    && (forall j :: j in sys.jobs ==> ActiveRow(sys, j))
    && (forall id: nat :: SendBound(sys, id))
    && (forall id: nat :: Unclaimed(sys.db, id) ==> HistoryOf(sys, id).returned == 0)
  }

  // ----- Sets of workers after one worker moves -----

  lemma MoveWorker(jobs: map<nat, Job>, j: nat, job: Job, id: nat)
    requires j in jobs ==> jobs[j].id == job.id || !Active(jobs[j])
    ensures ActiveOn(jobs[j := job], id)
         == if job.id == id && Active(job) then ActiveOn(jobs, id) + {j} else ActiveOn(jobs, id) - {j}
    ensures Sending(jobs[j := job], id)
         == if job.id == id && job.pc == Claimed then Sending(jobs, id) + {j} else Sending(jobs, id) - {j}
  {
  }

  lemma CountSending(jobs: map<nat, Job>, j: nat, job: Job, id: nat)
    requires j in jobs ==> jobs[j].id == job.id || !Active(jobs[j])
    ensures |Sending(jobs[j := job], id)| == |Sending(jobs, id)|
        + (if job.id == id && job.pc == Claimed then 1 else 0)
        - (if j in jobs && jobs[j].id == id && jobs[j].pc == Claimed then 1 else 0)
  {
    MoveWorker(jobs, j, job, id);
  }

  // ----- Every step keeps the bound -----

  lemma UnclaimedIsIdle(sys: System, id: nat)
    requires SendInv(sys) && Unclaimed(sys.db, id)
    ensures ActiveOn(sys.jobs, id) == {} && Sending(sys.jobs, id) == {}
  {
    forall j | j in sys.jobs ensures !(sys.jobs[j].id == id && Active(sys.jobs[j])) {
      assert ActiveRow(sys, j);
    }
  }

  /** A row that was claimed stays claimed. */
  lemma StepKeepsClaimed(sys: System, step: Step, id: nat)
    requires WithdrawalLedger.LedgerInv(sys) && !Unclaimed(sys.db, id)
    ensures !Unclaimed(Next(sys, step).db, id)
  {
    WithdrawalLedger.StepFollowsEdges(sys, step, id);
  }

  /** Transactions of administrators, watchers, users and other areas involve no worker. */
  predicate WithoutWorker(step: Step) {
    step.Register? || step.Request? || step.Watch? || step.Approve? || step.Reject? || step.PostElsewhere?
  }

  lemma OutsidersMove(sys: System, step: Step)
    requires WithoutWorker(step)
    ensures var sys' := Next(sys, step);
      sys'.jobs == sys.jobs && sys'.history == sys.history && sys'.settled == sys.settled
  {
  }

  lemma OutsidersKeepBound(sys: System, step: Step, id: nat)
    requires SendInv(sys) && WithoutWorker(step)
    ensures SendBound(Next(sys, step), id)
  {
    OutsidersMove(sys, step);
    assert SendBound(sys, id);
    if Unclaimed(sys.db, id) {
      UnclaimedIsIdle(sys, id);
    } else {
      WithdrawalLedger.StepFollowsEdges(sys, step, id);
    }
  }

  /** The claim of worker `j` matches. */
  predicate Wins(sys: System, j: nat) {
    At(sys, j, Loaded(false)) && ClaimTx(sys.db, sys.jobs[j].id).1
  }

  lemma LostClaimKeepsBound(sys: System, j: nat, id: nat)
    requires SendBound(sys, id) && At(sys, j, Loaded(false)) && !Wins(sys, j)
    ensures SendBound(ClaimStep(sys, j), id)
  {
    var job := sys.jobs[j].(pc := Ended);
    assert ClaimStep(sys, j) == Goto(sys, j, Ended);
    CountSending(sys.jobs, j, job, id);
    MoveWorker(sys.jobs, j, job, id);
    assert ActiveOn(ClaimStep(sys, j).jobs, id) == ActiveOn(sys.jobs, id);
  }

  lemma WonClaim(sys: System, j: nat)
    requires Wins(sys, j)
    ensures
      var sys' := ClaimStep(sys, j);
      var target := sys.jobs[j].id;
      && sys'.jobs == sys.jobs[j := Job(target, Claimed)]
      && sys'.history == NoteOverlap(sys, target).history && sys'.settled == sys.settled
      && target in sys.db.rows && sys.db.rows[target].status in {Queued, Processing}
      && target in sys'.db.rows && sys'.db.rows == sys.db.rows[target := sys'.db.rows[target]]
      && sys'.db.rows[target].status == Processing
  {
  }

  lemma OverlapCounts(sys: System, id: nat)
    ensures
      var h := HistoryOf(sys, id);
      HistoryOf(NoteOverlap(sys, id), id)
      == h.(overlapped := h.overlapped + (if ActiveOn(sys.jobs, id) == {} then 0 else 1))
  {
  }

  /** A worker becomes active on its row, and a row with a worker is no longer claimable. */
  lemma StartKeepsBound(sys: System, sys': System, j: nat, id: nat)
    requires SendBound(sys, id) && At(sys, j, Loaded(false))
    requires sys'.jobs == sys.jobs[j := Job(sys.jobs[j].id, Claimed)]
    requires sys'.history == NoteOverlap(sys, sys.jobs[j].id).history
    requires sys.jobs[j].id in sys.db.rows && sys.db.rows[sys.jobs[j].id].status in {Queued, Processing}
    requires id != sys.jobs[j].id && id in sys'.db.rows ==> id in sys.db.rows && sys'.db.rows[id] == sys.db.rows[id]
    ensures SendBound(sys', id)
  {
    var job := Job(sys.jobs[j].id, Claimed);
    CountSending(sys.jobs, j, job, id);
    MoveWorker(sys.jobs, j, job, id);
    OverlapCounts(sys, job.id);
    if id == job.id {
      assert j in ActiveOn(sys'.jobs, id);
    } else {
      assert ActiveOn(sys'.jobs, id) == ActiveOn(sys.jobs, id);
      assert HistoryOf(sys', id) == HistoryOf(sys, id);
    }
  }

  lemma ClaimKeepsBound(sys: System, j: nat, id: nat)
    requires SendBound(sys, id)
    ensures SendBound(ClaimStep(sys, j), id)
  {
    if Wins(sys, j) {
      WonClaim(sys, j);
      StartKeepsBound(sys, ClaimStep(sys, j), j, id);
    } else if At(sys, j, Loaded(false)) {
      LostClaimKeepsBound(sys, j, id);
    }
  }

  /** A worker stops: it never sent, its reply is noted as lost, or its row cannot be claimed again. */
  lemma StopKeepsBound(sys: System, sys': System, j: nat, id: nat)
    requires SendBound(sys, id) && j in sys.jobs
    requires sys'.jobs == sys.jobs[j := sys.jobs[j].(pc := Ended)]
    requires id in sys'.db.rows && sys'.db.rows[id].status in {Queued, Processing} ==>
      && id in sys.db.rows && sys.db.rows[id].status in {Queued, Processing}
      && (sys.jobs[j].id == id && sys.jobs[j].pc in {SentOk, SendFailed}
        ==> HistoryOf(sys', id).lost == HistoryOf(sys, id).lost + 1)
    requires HistoryOf(sys', id).lost >= HistoryOf(sys, id).lost
    requires HistoryOf(sys', id) == HistoryOf(sys, id).(lost := HistoryOf(sys', id).lost)
    ensures SendBound(sys', id)
  {
    var job := sys.jobs[j].(pc := Ended);
    CountSending(sys.jobs, j, job, id);
    MoveWorker(sys.jobs, j, job, id);
    if sys.jobs[j].id == id && Active(sys.jobs[j]) {
      assert j in ActiveOn(sys.jobs, id);
    } else {
      assert ActiveOn(sys'.jobs, id) == ActiveOn(sys.jobs, id);
    }
  }

  /** What recording a reply does to the rows. */
  lemma RecordMoves(sys: System, j: nat)
    requires WithdrawalLedger.LedgerInv(sys) && j in sys.jobs && ActiveRow(sys, j)
    requires At(sys, j, SentOk) || At(sys, j, SendFailed)
    ensures
      var sys' := SettleStep(sys, j, false);
      var target := sys.jobs[j].id;
      && sys'.jobs == sys.jobs[j := Job(target, Ended)] && sys'.history == sys.history
      && target in sys'.db.rows && sys'.db.rows[target].status !in {Queued, Processing}
      && sys'.db.rows == sys.db.rows[target := sys'.db.rows[target]]
  {
    var target := sys.jobs[j].id;
    assert sys.db.rows[target].user in sys.db.books.users;
    WithdrawalLedger.RefundCommits(sys.db, target, {Queued, Processing}, Failed, WithdrawRefund);
  }

  lemma SettleKeepsBound(sys: System, j: nat, aborts: bool, id: nat)
    requires SendInv(sys)
    ensures SendBound(SettleStep(sys, j, aborts), id)
  {
    assert SendBound(sys, id);
    if At(sys, j, SentOk) || At(sys, j, SendFailed) {
      assert ActiveRow(sys, j);
      if !aborts { RecordMoves(sys, j); }
      StopKeepsBound(sys, SettleStep(sys, j, aborts), j, id);
    }
  }

  lemma CrashKeepsBound(sys: System, j: nat, id: nat)
    requires SendBound(sys, id)
    ensures SendBound(CrashStep(sys, j), id)
  {
    if j in sys.jobs { StopKeepsBound(sys, CrashStep(sys, j), j, id); }
  }

  /** The gateway answers a claimed worker. */
  lemma ReplyKeepsBound(sys: System, sys': System, j: nat, id: nat)
    requires SendBound(sys, id) && At(sys, j, Claimed) && sys'.db == sys.db
    requires j in sys'.jobs && sys'.jobs == sys.jobs[j := Job(sys.jobs[j].id, sys'.jobs[j].pc)]
    requires sys'.jobs[j].pc in {SentOk, SendFailed}
    requires
      var h, h' := HistoryOf(sys, id), HistoryOf(sys', id);
      && h' == h.(returned := h'.returned, oks := h'.oks, moved := h'.moved)
      && h'.returned == h.returned + (if sys.jobs[j].id == id then 1 else 0)
      && h'.oks + h'.moved <= h.oks + h.moved + (if sys.jobs[j].id == id then 1 else 0)
    ensures SendBound(sys', id)
  {
    CountSending(sys.jobs, j, sys'.jobs[j], id);
    MoveWorker(sys.jobs, j, sys'.jobs[j], id);
    if sys.jobs[j].id == id { assert j in ActiveOn(sys.jobs, id); }
  }

  lemma SendKeepsBound(sys: System, step: Step, id: nat)
    requires SendBound(sys, id) && (step.SendOk? || step.SendRefused?)
    ensures SendBound(Next(sys, step), id)
  {
    if At(sys, step.job, Claimed) {
      ReplyKeepsBound(sys, Next(sys, step), step.job, id);
    }
  }

  lemma LoadKeepsBound(sys: System, j: nat, i: nat, id: nat)
    requires SendBound(sys, id)
    ensures SendBound(Next(sys, Load(j, i)), id)
  {
    var sys' := Next(sys, Load(j, i));
    if sys' != sys {
      CountSending(sys.jobs, j, sys'.jobs[j], id);
      MoveWorker(sys.jobs, j, sys'.jobs[j], id);
    }
  }

  lemma DeadLetterMoves(sys: System, i: nat)
    requires WithdrawalLedger.LedgerInv(sys)
    ensures
      var sys' := DeadLetterStep(sys, i);
      && sys'.jobs == sys.jobs && sys'.settled == sys.settled
      && (forall id: nat :: HistoryOf(sys', id) == HistoryOf(sys, id).(interrupted := HistoryOf(sys', id).interrupted))
      && (sys' == sys
        || (i in sys'.db.rows && sys'.db.rows == sys.db.rows[i := sys'.db.rows[i]] && sys'.db.rows[i].status == Failed))
  {
    WithdrawalLedger.RefundCommits(sys.db, i, {Queued, Processing}, Failed, WithdrawRefund);
  }

  lemma DeadLetterKeepsBound(sys: System, i: nat, id: nat)
    requires WithdrawalLedger.LedgerInv(sys) && SendBound(sys, id)
    ensures SendBound(DeadLetterStep(sys, i), id)
  {
    DeadLetterMoves(sys, i);
  }

  lemma StepKeepsBound(sys: System, step: Step, id: nat)
    requires SendInv(sys)
    ensures SendBound(Next(sys, step), id)
  {
    assert SendBound(sys, id);
    match step
    case Load(j, i) => LoadKeepsBound(sys, j, i, id);
    case HoldBack(j) => assert Next(sys, step) == sys;
    case Claim(j) => ClaimKeepsBound(sys, j, id);
    case SendUnreachable(j) =>
      if At(sys, j, Claimed) { StopKeepsBound(sys, Goto(sys, j, Ended), j, id); }
    case SendOk(j) => SendKeepsBound(sys, step, id);
    case SendRefused(j, moved) => SendKeepsBound(sys, step, id);
    case Settle(j, aborts) => SettleKeepsBound(sys, j, aborts, id);
    case Crash(j) => CrashKeepsBound(sys, j, id);
    case DeadLetter(i, aborts) => DeadLetterKeepsBound(sys, i, id);
    case _ => OutsidersKeepBound(sys, step, id);
  }

  /** A worker is active because it was before, or because it has just won its claim. */
  lemma ActiveWorkers(sys: System, step: Step, j: nat)
    requires j in Next(sys, step).jobs && Active(Next(sys, step).jobs[j])
    ensures
      || (j in sys.jobs && Active(sys.jobs[j]) && Next(sys, step).jobs[j].id == sys.jobs[j].id)
      || (step.Claim? && step.job == j && Wins(sys, j))
  {
  }

  lemma StepKeepsActiveRow(sys: System, step: Step, j: nat)
    requires SendInv(sys) && j in Next(sys, step).jobs
    ensures ActiveRow(Next(sys, step), j)
  {
    if Active(Next(sys, step).jobs[j]) {
      ActiveWorkers(sys, step, j);
      if step.Claim? && step.job == j && Wins(sys, j) {
        WonClaim(sys, j);
      } else {
        assert ActiveRow(sys, j);
        StepKeepsClaimed(sys, step, sys.jobs[j].id);
      }
    }
  }

  /** Only a worker that holds a claim sends, so no reply precedes the claim. */
  lemma StepKeepsUnclaimedUnsent(sys: System, step: Step, id: nat)
    requires SendInv(sys) && Unclaimed(Next(sys, step).db, id)
    ensures HistoryOf(Next(sys, step), id).returned == 0
  {
    if !Unclaimed(sys.db, id) { StepKeepsClaimed(sys, step, id); }
    if (step.SendOk? || step.SendRefused?) && At(sys, step.job, Claimed) {
      assert ActiveRow(sys, step.job);
    }
    SendsAnswer(sys, step, id);
  }

  /** Replies are counted when they come. */
  lemma SendsAnswer(sys: System, step: Step, id: nat)
    ensures HistoryOf(Next(sys, step), id).returned == HistoryOf(sys, id).returned
      || ((step.SendOk? || step.SendRefused?) && At(sys, step.job, Claimed) && sys.jobs[step.job].id == id)
  {
  }

  lemma StepKeepsSends(sys: System, step: Step)
    requires SendInv(sys)
    ensures SendInv(Next(sys, step))
  {
    var sys' := Next(sys, step);
    WithdrawalLedger.StepKeepsLedger(sys, step);
    forall j | j in sys'.jobs ensures ActiveRow(sys', j) {
      StepKeepsActiveRow(sys, step, j);
    }
    forall id: nat ensures SendBound(sys', id) {
      StepKeepsBound(sys, step, id);
    }
    forall id: nat | Unclaimed(sys'.db, id) ensures HistoryOf(sys', id).returned == 0 {
      StepKeepsUnclaimedUnsent(sys, step, id);
    }
  }

  lemma {:induction false} RunKeepsSends(sys: System, steps: seq<Step>)
    requires SendInv(sys)
    ensures SendInv(Run(sys, steps))
    decreases |steps|
  {
    if steps != [] {
      StepKeepsSends(sys, steps[0]);
      RunKeepsSends(Next(sys, steps[0]), steps[1..]);
    }
  }

  // ----- What a run guarantees -----

  /**
   * Over every interleaving, the gateway answers for a withdrawal at most once more than the
   * number of answers that were never recorded plus the number of claims that overlapped; and
   * it pays no more often than it answers.
   */
  lemma SendsAreBounded(steps: seq<Step>, id: nat)
    ensures var h := HistoryOf(Run(INIT, steps), id);
      h.oks + h.moved <= h.returned <= 1 + h.lost + h.overlapped
  {
    RunKeepsSends(INIT, steps);
    assert SendBound(Run(INIT, steps), id);
  }

  // ----- One worker at a time, and every answer recorded -----

  /** No lost answer, no overlapping claim, no dead letter while a worker was active. */
  predicate Clean(sys: System, id: nat) {
    HistoryOf(sys, id).lost == 0 && HistoryOf(sys, id).overlapped == 0 && HistoryOf(sys, id).interrupted == 0
  }

  /** A worker whose ok is not recorded yet. */
  predicate OkInFlight(jobs: map<nat, Job>, id: nat, j: nat) {
    j in jobs && jobs[j] == Job(id, SentOk)
  }

  lemma InFlightIsActive(jobs: map<nat, Job>, id: nat, j: nat)
    ensures OkInFlight(jobs, id, j) ==> j in ActiveOn(jobs, id)
  {
  }

  lemma SendersAreActive(jobs: map<nat, Job>, id: nat)
    ensures Sending(jobs, id) <= ActiveOn(jobs, id)
  {
  }

  ghost predicate CleanRow(sys: System, id: nat) {
    Clean(sys, id) ==>
      && (forall i, j :: i in ActiveOn(sys.jobs, id) && j in ActiveOn(sys.jobs, id) ==> i == j)
      && (ActiveOn(sys.jobs, id) != {} ==> id in sys.db.rows && sys.db.rows[id].status == Processing)
      && (HistoryOf(sys, id).oks > 0 <==> id in sys.settled || exists j :: OkInFlight(sys.jobs, id, j))
      && (Sending(sys.jobs, id) != {} ==> HistoryOf(sys, id).returned == 0)
  }

  ghost predicate CleanInv(sys: System) {
    SendInv(sys) && WithdrawalLedger.SettledOnce(sys) && forall id: nat :: CleanRow(sys, id)
  }

  /** What `CleanRow` depends on: the row's status while active, its workers, and its answers. */
  lemma CleanRowCarries(sys: System, sys': System, id: nat)
    requires CleanRow(sys, id) && (Clean(sys', id) ==> Clean(sys, id))
    requires ActiveOn(sys'.jobs, id) == ActiveOn(sys.jobs, id) && Sending(sys'.jobs, id) == Sending(sys.jobs, id)
    requires forall j :: OkInFlight(sys'.jobs, id, j) <==> OkInFlight(sys.jobs, id, j)
    requires HistoryOf(sys', id).oks == HistoryOf(sys, id).oks
    requires HistoryOf(sys', id).returned == HistoryOf(sys, id).returned
    requires id in sys'.settled <==> id in sys.settled
    requires ActiveOn(sys.jobs, id) != {} && id in sys.db.rows && sys.db.rows[id].status == Processing ==>
      id in sys'.db.rows && sys'.db.rows[id].status == Processing
    ensures CleanRow(sys', id)
  {
  }

  lemma WatchKeepsProcessing(db: Db, target: nat, head: nat, reply: ChainReply, id: nat)
    requires WithdrawalLedger.DbInv(db)
    requires id in db.rows && db.rows[id].status == Processing
    ensures var db' := WatchTx(db, target, head, reply); id in db'.rows && db'.rows[id].status == Processing
  {
    WithdrawalLedger.RefundCommits(db, target, {Broadcast}, Failed, WithdrawRefund);
  }

  lemma RejectKeepsProcessing(db: Db, target: nat, id: nat)
    requires WithdrawalLedger.DbInv(db)
    requires id in db.rows && db.rows[id].status == Processing
    ensures var db' := RejectTx(db, target).0; id in db'.rows && db'.rows[id].status == Processing
  {
    WithdrawalLedger.RefundCommits(db, target, {Hold, Queued}, Rejected, WithdrawRejected);
  }

  lemma RequestKeepsProcessing(db: Db, step: Step, id: nat)
    requires step.Request? && id in db.rows && db.rows[id].status == Processing
    ensures var db' := RequestTx(db, step.id, step.user, step.amount, step.route, step.needsReview);
      id in db'.rows && db'.rows[id].status == Processing
  {
  }

  lemma OutsidersKeepProcessing(sys: System, step: Step, id: nat)
    requires WithdrawalLedger.LedgerInv(sys) && WithoutWorker(step)
    requires id in sys.db.rows && sys.db.rows[id].status == Processing
    ensures id in Next(sys, step).db.rows && Next(sys, step).db.rows[id].status == Processing
  {
    match step
    case Watch(target, head, reply, aborts) => WatchKeepsProcessing(sys.db, target, head, reply, id);
    case Reject(target, aborts) => RejectKeepsProcessing(sys.db, target, id);
    case Request(_, _, _, _, _) => RequestKeepsProcessing(sys.db, step, id);
    case Approve(target) => assert ApproveTx(sys.db, target).0.rows[id].status == Processing;
    case Register(_, _) => assert Next(sys, step).db.rows == sys.db.rows;
    case PostElsewhere(_, _, _, _) => assert Next(sys, step).db.rows == sys.db.rows;
    case _ =>
  }

  lemma OutsidersKeepClean(sys: System, step: Step, id: nat)
    requires WithdrawalLedger.LedgerInv(sys) && CleanRow(sys, id) && WithoutWorker(step)
    ensures CleanRow(Next(sys, step), id)
  {
    OutsidersMove(sys, step);
    if id in sys.db.rows && sys.db.rows[id].status == Processing {
      OutsidersKeepProcessing(sys, step, id);
    }
    CleanRowCarries(sys, Next(sys, step), id);
  }

  // ----- Claims -----

  /** A claim that overlaps nobody: nothing has been answered yet, and the claimer is alone. */
  lemma FreshClaim(sys: System, j: nat)
    requires Wins(sys, j) && SendBound(sys, sys.jobs[j].id) && CleanRow(sys, sys.jobs[j].id)
    requires Clean(ClaimStep(sys, j), sys.jobs[j].id)
    ensures
      var id := sys.jobs[j].id;
      && ActiveOn(sys.jobs, id) == {} && HistoryOf(sys, id).returned == 0
      && ClaimStep(sys, j).history == sys.history && id !in sys.settled
  {
    var id := sys.jobs[j].id;
    WonClaim(sys, j);
    OverlapCounts(sys, id);
    assert ActiveOn(sys.jobs, id) == {};
    assert Claimable(sys, id);
  }

  lemma WonClaimKeepsOwnClean(sys: System, j: nat)
    requires Wins(sys, j) && SendBound(sys, sys.jobs[j].id) && CleanRow(sys, sys.jobs[j].id)
    ensures CleanRow(ClaimStep(sys, j), sys.jobs[j].id)
  {
    var id := sys.jobs[j].id;
    var sys' := ClaimStep(sys, j);
    if Clean(sys', id) {
      FreshClaim(sys, j);
      WonClaim(sys, j);
      MoveWorker(sys.jobs, j, Job(id, Claimed), id);
      assert ActiveOn(sys'.jobs, id) == {j};
      forall k ensures !OkInFlight(sys'.jobs, id, k) {
        InFlightIsActive(sys'.jobs, id, k);
      }
    }
  }

  lemma WonClaimKeepsClean(sys: System, j: nat, id: nat)
    requires CleanRow(sys, id) && Wins(sys, j) && id != sys.jobs[j].id
    ensures CleanRow(ClaimStep(sys, j), id)
  {
    WonClaim(sys, j);
    MoveWorker(sys.jobs, j, Job(sys.jobs[j].id, Claimed), id);
    CleanRowCarries(sys, ClaimStep(sys, j), id);
  }

  lemma ClaimKeepsClean(sys: System, j: nat, id: nat)
    requires SendBound(sys, id) && CleanRow(sys, id)
    ensures CleanRow(ClaimStep(sys, j), id)
  {
    if Wins(sys, j) && id == sys.jobs[j].id {
      WonClaimKeepsOwnClean(sys, j);
    } else if Wins(sys, j) {
      WonClaimKeepsClean(sys, j, id);
    } else if At(sys, j, Loaded(false)) {
      assert ClaimStep(sys, j) == Goto(sys, j, Ended);
      IdleKeepsClean(sys, Goto(sys, j, Ended), j, id);
    }
  }

  /** A worker that is not active moves without becoming active. */
  lemma IdleKeepsClean(sys: System, sys': System, j: nat, id: nat)
    requires CleanRow(sys, id) && j in sys'.jobs && sys'.jobs == sys.jobs[j := sys'.jobs[j]] && sys'.db == sys.db
    requires sys'.history == sys.history && sys'.settled == sys.settled
    requires !Active(sys'.jobs[j]) && (j in sys.jobs ==> !Active(sys.jobs[j]))
    ensures CleanRow(sys', id)
  {
    MoveWorker(sys.jobs, j, sys'.jobs[j], id);
    CleanRowCarries(sys, sys', id);
  }

  // ----- Answers -----

  /** The gateway answers a claimed worker: an ok, if it was one, is now in flight. */
  lemma ReplyKeepsOwnClean(sys: System, sys': System, j: nat)
    requires At(sys, j, Claimed) && CleanRow(sys, sys.jobs[j].id)
    requires sys'.db == sys.db && sys'.settled == sys.settled && j in sys'.jobs
    requires sys'.jobs == sys.jobs[j := Job(sys.jobs[j].id, sys'.jobs[j].pc)] && sys'.jobs[j].pc in {SentOk, SendFailed}
    requires
      var h, h' := HistoryOf(sys, sys.jobs[j].id), HistoryOf(sys', sys.jobs[j].id);
      && h' == h.(returned := h'.returned, oks := h'.oks, moved := h'.moved)
      && h'.oks == h.oks + (if sys'.jobs[j].pc == SentOk then 1 else 0)
    ensures CleanRow(sys', sys.jobs[j].id)
  {
    var id := sys.jobs[j].id;
    MoveWorker(sys.jobs, j, sys'.jobs[j], id);
    if Clean(sys', id) {
      assert j in ActiveOn(sys.jobs, id) && j in Sending(sys.jobs, id);
      assert Clean(sys, id) && HistoryOf(sys, id).returned == 0;
      assert ActiveOn(sys'.jobs, id) == ActiveOn(sys.jobs, id);
      assert ActiveOn(sys.jobs, id) == {j};
      SendersAreActive(sys.jobs, id);
      forall k ensures !OkInFlight(sys.jobs, id, k) && (OkInFlight(sys'.jobs, id, k) ==> k == j) {
        InFlightIsActive(sys.jobs, id, k);
        InFlightIsActive(sys'.jobs, id, k);
      }
      assert OkInFlight(sys'.jobs, id, j) <==> sys'.jobs[j].pc == SentOk;
    }
  }

  lemma SendKeepsClean(sys: System, step: Step, id: nat)
    requires CleanRow(sys, id) && (step.SendOk? || step.SendRefused?)
    ensures CleanRow(Next(sys, step), id)
  {
    var j := step.job;
    if At(sys, j, Claimed) {
      var sys' := Next(sys, step);
      if id == sys.jobs[j].id {
        ReplyKeepsOwnClean(sys, sys', j);
      } else {
        MoveWorker(sys.jobs, j, sys'.jobs[j], id);
        CleanRowCarries(sys, sys', id);
      }
    }
  }

  /** A worker with nothing to record leaves. */
  lemma LeaveKeepsClean(sys: System, sys': System, j: nat, id: nat)
    requires CleanRow(sys, id) && j in sys.jobs && sys.jobs[j].pc != SentOk
    requires sys'.jobs == sys.jobs[j := sys.jobs[j].(pc := Ended)]
    requires sys'.db == sys.db && sys'.settled == sys.settled && sys'.history == sys.history
    ensures CleanRow(sys', id)
  {
    MoveWorker(sys.jobs, j, sys'.jobs[j], id);
    forall k ensures OkInFlight(sys'.jobs, id, k) <==> OkInFlight(sys.jobs, id, k) {
    }
    if id != sys.jobs[j].id || !Active(sys.jobs[j]) {
      CleanRowCarries(sys, sys', id);
    } else {
      assert j in ActiveOn(sys.jobs, id);
    }
  }

  /** A worker whose answer is lost leaves: its row is no longer clean, others do not notice. */
  lemma LossKeepsClean(sys: System, j: nat, id: nat)
    requires CleanRow(sys, id) && (At(sys, j, SentOk) || At(sys, j, SendFailed))
    ensures CleanRow(Goto(NoteLost(sys, sys.jobs[j].id), j, Ended), id)
  {
    var sys' := Goto(NoteLost(sys, sys.jobs[j].id), j, Ended);
    if id == sys.jobs[j].id {
      assert !Clean(sys', id);
    } else {
      MoveWorker(sys.jobs, j, sys'.jobs[j], id);
      CleanRowCarries(sys, sys', id);
    }
  }

  lemma CrashKeepsClean(sys: System, j: nat, id: nat)
    requires CleanRow(sys, id)
    ensures CleanRow(CrashStep(sys, j), id)
  {
    if At(sys, j, SentOk) || At(sys, j, SendFailed) {
      LossKeepsClean(sys, j, id);
    } else if j in sys.jobs {
      LeaveKeepsClean(sys, CrashStep(sys, j), j, id);
    }
  }

  // ----- Recording -----

  lemma RecordKeepsOthersClean(sys: System, j: nat, id: nat)
    requires SendInv(sys) && CleanRow(sys, id)
    requires (At(sys, j, SentOk) || At(sys, j, SendFailed)) && id != sys.jobs[j].id
    ensures CleanRow(SettleStep(sys, j, false), id)
  {
    assert ActiveRow(sys, j);
    RecordMoves(sys, j);
    RecordSettlesOwn(sys, j, id);
    OthersKeepClean(sys, SettleStep(sys, j, false), j, id);
  }

  lemma RecordSettlesOwn(sys: System, j: nat, id: nat)
    requires j in sys.jobs && id != sys.jobs[j].id
    ensures id in SettleStep(sys, j, false).settled <==> id in sys.settled
  {
  }

  /** What one worker and its row do is nothing to the other rows. */
  lemma OthersKeepClean(sys: System, sys': System, j: nat, id: nat)
    requires CleanRow(sys, id) && j in sys.jobs && id != sys.jobs[j].id
    requires sys'.jobs == sys.jobs[j := Job(sys.jobs[j].id, Ended)] && sys'.history == sys.history
    requires sys.jobs[j].id in sys'.db.rows
    requires sys'.db.rows == sys.db.rows[sys.jobs[j].id := sys'.db.rows[sys.jobs[j].id]]
    requires id in sys'.settled <==> id in sys.settled
    ensures CleanRow(sys', id)
  {
    MoveWorker(sys.jobs, j, sys'.jobs[j], id);
    CleanRowCarries(sys, sys', id);
  }

  /** A recorded answer: the only worker leaves, and an ok in flight becomes a settlement. */
  lemma RecordKeepsOwnClean(sys: System, j: nat)
    requires SendInv(sys) && (At(sys, j, SentOk) || At(sys, j, SendFailed)) && CleanRow(sys, sys.jobs[j].id)
    ensures CleanRow(SettleStep(sys, j, false), sys.jobs[j].id)
  {
    var id := sys.jobs[j].id;
    var sys' := SettleStep(sys, j, false);
    assert ActiveRow(sys, j);
    RecordMoves(sys, j);
    MoveWorker(sys.jobs, j, sys'.jobs[j], id);
    if Clean(sys', id) {
      assert j in ActiveOn(sys.jobs, id);
      assert ActiveOn(sys'.jobs, id) == {};
      forall k ensures !OkInFlight(sys'.jobs, id, k) {
        InFlightIsActive(sys'.jobs, id, k);
      }
      SendersAreActive(sys'.jobs, id);
      RecordSettles(sys, j);
      assert At(sys, j, SentOk) ==> OkInFlight(sys.jobs, id, j);
      forall k | OkInFlight(sys.jobs, id, k) ensures k == j { InFlightIsActive(sys.jobs, id, k); }
    }
  }

  /** While the row is `processing`, an ok settles it and a refusal does not. */
  lemma RecordSettles(sys: System, j: nat)
    requires WithdrawalLedger.LedgerInv(sys) && (At(sys, j, SentOk) || At(sys, j, SendFailed))
    requires sys.jobs[j].id in sys.db.rows && sys.db.rows[sys.jobs[j].id].status == Processing
    ensures SettleStep(sys, j, false).settled
      == if At(sys, j, SentOk) then sys.settled + [sys.jobs[j].id] else sys.settled
  {
    assert sys.db.rows[sys.jobs[j].id].user in sys.db.books.users;
  }

  lemma SettleKeepsClean(sys: System, j: nat, aborts: bool, id: nat)
    requires SendInv(sys) && CleanRow(sys, id)
    ensures CleanRow(SettleStep(sys, j, aborts), id)
  {
    if At(sys, j, SentOk) || At(sys, j, SendFailed) {
      if aborts {
        LossKeepsClean(sys, j, id);
      } else if id == sys.jobs[j].id {
        RecordKeepsOwnClean(sys, j);
      } else {
        RecordKeepsOthersClean(sys, j, id);
      }
    }
  }

  lemma DeadLetterKeepsClean(sys: System, i: nat, id: nat)
    requires WithdrawalLedger.LedgerInv(sys) && CleanRow(sys, id)
    ensures CleanRow(DeadLetterStep(sys, i), id)
  {
    var sys' := DeadLetterStep(sys, i);
    DeadLetterMoves(sys, i);
    if id == i && sys' != sys && ActiveOn(sys.jobs, id) != {} {
      assert !Clean(sys', id);
    } else {
      DeadLetterDirties(sys, i, id);
      CleanRowCarries(sys, sys', id);
    }
  }

  lemma DeadLetterDirties(sys: System, i: nat, id: nat)
    ensures Clean(DeadLetterStep(sys, i), id) ==> Clean(sys, id)
  {
  }

  lemma LoadKeepsClean(sys: System, j: nat, i: nat, id: nat)
    requires CleanRow(sys, id)
    ensures CleanRow(Next(sys, Load(j, i)), id)
  {
    var sys' := Next(sys, Load(j, i));
    if sys' != sys {
      IdleKeepsClean(sys, sys', j, id);
    }
  }

  lemma StepKeepsCleanRow(sys: System, step: Step, id: nat)
    requires CleanInv(sys)
    ensures CleanRow(Next(sys, step), id)
  {
    assert CleanRow(sys, id) && SendBound(sys, id);
    match step
    case Load(j, i) => LoadKeepsClean(sys, j, i, id);
    case HoldBack(j) => assert Next(sys, step) == sys;
    case Claim(j) => ClaimKeepsClean(sys, j, id);
    case SendUnreachable(j) =>
      if At(sys, j, Claimed) { LeaveKeepsClean(sys, Goto(sys, j, Ended), j, id); }
    case SendOk(j) => SendKeepsClean(sys, step, id);
    case SendRefused(j, moved) => SendKeepsClean(sys, step, id);
    case Settle(j, aborts) => SettleKeepsClean(sys, j, aborts, id);
    case Crash(j) => CrashKeepsClean(sys, j, id);
    case DeadLetter(i, aborts) => DeadLetterKeepsClean(sys, i, id);
    case _ => OutsidersKeepClean(sys, step, id);
  }

  lemma {:induction false} RunKeepsClean(sys: System, steps: seq<Step>)
    requires CleanInv(sys) && WithdrawalLedger.WithdrawnInv(sys)
    ensures CleanInv(Run(sys, steps))
    decreases |steps|
  {
    if steps != [] {
      StepKeepsSends(sys, steps[0]);
      WithdrawalLedger.StepKeepsWithdrawn(sys, steps[0]);
      forall id: nat ensures CleanRow(Next(sys, steps[0]), id) {
        StepKeepsCleanRow(sys, steps[0], id);
      }
      RunKeepsClean(Next(sys, steps[0]), steps[1..]);
    }
  }

  /**
   * With one worker at a time and every answer recorded: at most one send of a withdrawal
   * returns normally. A row now broadcast or sent was answered once, with ok; a rejected row
   * was never sent; and a row the job or its dead letter refunded was never answered with ok,
   * so it was paid all the same exactly when its one refusal had moved the money.
   */
  lemma OneSendReturns(steps: seq<Step>, id: nat)
    requires Clean(Run(INIT, steps), id) && id in Run(INIT, steps).db.rows
    ensures
      var sys := Run(INIT, steps);
      var h, status := HistoryOf(sys, id), sys.db.rows[id].status;
      && h.returned <= 1
      && (status in {Broadcast, Sent} ==> h.oks == 1)
      && (status == Rejected ==> h.returned == 0)
      && (status == Failed && id !in sys.settled ==> h.oks == 0 && (h.oks + h.moved > 0 <==> h.moved == 1))
  {
    SendsAreBounded(steps, id);
    RunKeepsClean(INIT, steps);
    var sys := Run(INIT, steps);
    assert CleanRow(sys, id) && SendBound(sys, id);
    if sys.db.rows[id].status in {Failed, Rejected} {
      forall j ensures !OkInFlight(sys.jobs, id, j) {
        InFlightIsActive(sys.jobs, id, j);
      }
    }
  }
}
