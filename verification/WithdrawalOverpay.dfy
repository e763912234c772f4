/**
 * The bound of `WithdrawalSends.SendsAreBounded` is exact: any number of lost answers and any
 * number of overlapping workers each cost one more payout of the same withdrawal. And the
 * exact condition for a withdrawal that was paid never to be refunded by the job.
 */
module WithdrawalOverpay {
  import opened Common
  import opened Books
  import opened Withdrawals
  import WithdrawalLedger
  import WithdrawalSends

  /** Withdrawal 0 after `lost` lost answers to worker 0, with `live` workers whose ok is not recorded. */
  ghost predicate Stage(sys: System, lost: nat, live: nat) {
    && 0 in sys.db.rows && sys.db.rows[0].status in {Queued, Processing} && !sys.db.rows[0].requiresReview
    && (forall j :: j in sys.jobs ==> j <= live)
    && (0 in sys.jobs ==> sys.jobs[0].pc == Ended)
    && (forall j :: 1 <= j <= live ==> j in sys.jobs && sys.jobs[j] == Job(0, SentOk))
    && HistoryOf(sys, 0) == History(lost + live, lost + live, 0, lost, if live == 0 then 0 else live - 1, 0)
  }

  /** Loading and claiming a row that no review holds back. */
  lemma LoadAndClaim(sys: System, j: nat) returns (sys': System)
    requires 0 in sys.db.rows && sys.db.rows[0].status in {Queued, Processing} && !sys.db.rows[0].requiresReview
    requires j in sys.jobs ==> sys.jobs[j].pc == Ended
    ensures sys' == Next(Next(sys, Load(j, 0)), Claim(j))
    ensures 0 in sys'.db.rows && sys'.db.rows[0].status == Processing && !sys'.db.rows[0].requiresReview
    ensures sys'.jobs == sys.jobs[j := Job(0, Claimed)] && sys'.settled == sys.settled
    ensures HistoryOf(sys', 0)
      == HistoryOf(sys, 0).(overlapped := HistoryOf(sys, 0).overlapped + if ActiveOn(sys.jobs, 0) == {} then 0 else 1)
  {
    var s := Next(sys, Load(j, 0));
    assert s == sys.(jobs := sys.jobs[j := Job(0, Loaded(false))]);
    assert ActiveOn(s.jobs, 0) == ActiveOn(sys.jobs, 0);
    sys' := Next(s, Claim(j));
    assert sys'.jobs == sys.jobs[j := Job(0, Claimed)];
    WithdrawalSends.OverlapCounts(s, 0);
  }

  /** A worker claims and is told ok. */
  lemma LoadClaimSend(sys: System, j: nat) returns (sys': System)
    requires 0 in sys.db.rows && sys.db.rows[0].status in {Queued, Processing} && !sys.db.rows[0].requiresReview
    requires j in sys.jobs ==> sys.jobs[j].pc == Ended
    ensures sys' == Run(sys, [Load(j, 0), Claim(j), SendOk(j)])
    ensures 0 in sys'.db.rows && sys'.db.rows[0].status == Processing && !sys'.db.rows[0].requiresReview
    ensures sys'.jobs == sys.jobs[j := Job(0, SentOk)] && sys'.settled == sys.settled
    ensures
      var h := HistoryOf(sys, 0);
      HistoryOf(sys', 0) == h.(returned := h.returned + 1, oks := h.oks + 1,
                               overlapped := h.overlapped + if ActiveOn(sys.jobs, 0) == {} then 0 else 1)
  {
    RunThree(sys, Load(j, 0), Claim(j), SendOk(j));
    var s := LoadAndClaim(sys, j);
    sys' := Next(s, SendOk(j));
    assert sys'.jobs == sys.jobs[j := Job(0, SentOk)];
  }

  /** Worker 0 pays, and the recording of the answer aborts. */
  lemma LostRound(sys: System, lost: nat) returns (steps: seq<Step>)
    requires Stage(sys, lost, 0)
    ensures Stage(Run(sys, steps), lost + 1, 0)
  {
    assert ActiveOn(sys.jobs, 0) == {};
    var paid := LoadClaimSend(sys, 0);
    RunAppend(sys, [Load(0, 0), Claim(0), SendOk(0)], [Settle(0, true)]);
    RunOne(paid, Settle(0, true));
    steps := [Load(0, 0), Claim(0), SendOk(0)] + [Settle(0, true)];
    LostStage(sys, paid, lost);
  }

  lemma LostStage(sys: System, paid: System, lost: nat)
    requires Stage(sys, lost, 0)
    requires 0 in paid.db.rows && paid.db.rows[0].status == Processing && !paid.db.rows[0].requiresReview
    requires paid.jobs == sys.jobs[0 := Job(0, SentOk)]
      && HistoryOf(paid, 0) == History(lost + 1, lost + 1, 0, lost, 0, 0)
    ensures Stage(Next(paid, Settle(0, true)), lost + 1, 0)
  {
    assert Next(paid, Settle(0, true)) == Goto(NoteLost(paid, 0), 0, Ended);
  }

  /** One more worker claims and pays the row while the others have not recorded their answers. */
  lemma LiveRound(sys: System, lost: nat, live: nat) returns (steps: seq<Step>)
    requires Stage(sys, lost, live)
    ensures Stage(Run(sys, steps), lost, live + 1)
  {
    var j := live + 1;
    if live > 0 { assert 1 in ActiveOn(sys.jobs, 0); } else { assert ActiveOn(sys.jobs, 0) == {}; }
    var end := LoadClaimSend(sys, j);
    steps := [Load(j, 0), Claim(j), SendOk(j)];
    LiveStage(sys, end, lost, live);
  }

  lemma LiveStage(sys: System, sys': System, lost: nat, live: nat)
    requires Stage(sys, lost, live)
    requires 0 in sys'.db.rows && sys'.db.rows[0].status == Processing && !sys'.db.rows[0].requiresReview
    requires sys'.jobs == sys.jobs[live + 1 := Job(0, SentOk)]
    requires HistoryOf(sys', 0) == History(lost + live + 1, lost + live + 1, 0, lost, live, 0)
    ensures Stage(sys', lost, live + 1)
  {
  }

  lemma {:induction false} LostRounds(sys: System, n: nat) returns (steps: seq<Step>)
    requires Stage(sys, 0, 0)
    ensures Stage(Run(sys, steps), n, 0)
  {
    if n == 0 {
      steps := [];
    } else {
      var front := LostRounds(sys, n - 1);
      var last := LostRound(Run(sys, front), n - 1);
      RunAppend(sys, front, last);
      steps := front + last;
    }
  }

  lemma {:induction false} LiveRounds(sys: System, lost: nat, n: nat) returns (steps: seq<Step>)
    requires Stage(sys, lost, 0)
    ensures Stage(Run(sys, steps), lost, n)
  {
    if n == 0 {
      steps := [];
    } else {
      var front := LiveRounds(sys, lost, n - 1);
      var last := LiveRound(Run(sys, front), lost, n - 1);
      RunAppend(sys, front, last);
      steps := front + last;
    }
  }

  /** One user, and the withdrawal the runs are about. */
  lemma Setup() returns (steps: seq<Step>)
    ensures Stage(Run(INIT, steps), 0, 0) && 0 !in Run(INIT, steps).settled
  {
    steps := [Register(0, None)] + [Request(0, 0, 5, FaucetPay, false)];
    RunAppend(INIT, [Register(0, None)], [Request(0, 0, 5, FaucetPay, false)]);
    RunOne(INIT, Register(0, None));
    RunOne(Next(INIT, Register(0, None)), Request(0, 0, 5, FaucetPay, false));
  }

  /** The run answers and pays withdrawal 0 once more than its lost answers and overlaps together. */
  ghost predicate Overpays(steps: seq<Step>, lost: nat, overlapped: nat) {
    HistoryOf(Run(INIT, steps), 0) == History(1 + lost + overlapped, 1 + lost + overlapped, 0, lost, overlapped, 0)
  }

  /** For all `lost` and `overlapped` there is such a run. */
  lemma BoundIsReached(lost: nat, overlapped: nat)
    ensures exists steps :: Overpays(steps, lost, overlapped)
  {
    var a := Setup();
    var b := LostRounds(Run(INIT, a), lost);
    RunAppend(INIT, a, b);
    var c := LiveRounds(Run(INIT, a + b), lost, overlapped + 1);
    RunAppend(INIT, a + b, c);
    assert Overpays(a + b + c, lost, overlapped);
  }

  // ----- Paid and refunded -----

  /** The gateway paid the withdrawal, and the job or its dead letter has given the debit back. */
  predicate PaidAndRefunded(sys: System, id: nat) {
    && id in sys.db.rows && sys.db.rows[id].status == Failed && id !in sys.settled
    && HistoryOf(sys, id).oks + HistoryOf(sys, id).moved > 0
  }

  /** At most so many lost answers, overlapping claims, interrupting dead letters and moved refusals. */
  predicate Within(sys: System, id: nat, lost: nat, overlapped: nat, interrupted: nat, moved: nat) {
    var h := HistoryOf(sys, id);
    h.lost <= lost && h.overlapped <= overlapped && h.interrupted <= interrupted && h.moved <= moved
  }

  /** Withdrawal 0 ends paid and refunded, with this history. */
  ghost predicate EndsPaidAndRefunded(steps: seq<Step>, h: History) {
    PaidAndRefunded(Run(INIT, steps), 0) && HistoryOf(Run(INIT, steps), 0) == h
  }

  // Each condition alone suffices. One lost ok: the dead letter refunds.

  lemma DeadLetterRefunds(sys: System)
    requires Stage(sys, 1, 0) && WithdrawalLedger.LedgerInv(sys) && 0 !in sys.settled
    ensures var sys' := Next(sys, DeadLetter(0, false));
      PaidAndRefunded(sys', 0) && HistoryOf(sys', 0) == History(1, 1, 0, 1, 0, 0)
  {
    assert ActiveOn(sys.jobs, 0) == {};
    WithdrawalLedger.RefundCommits(sys.db, 0, {Queued, Processing}, Failed, WithdrawRefund);
  }

  lemma LostAnswerIsRefunded()
    ensures exists steps :: EndsPaidAndRefunded(steps, History(1, 1, 0, 1, 0, 0))
  {
    var a := Setup();
    var b := LostRounds(Run(INIT, a), 1);
    RunAppend(INIT, a, b);
    Sound(a + b);
    NothingSettled(a + b);
    DeadLetterRefunds(Run(INIT, a + b));
    RunAppend(INIT, a + b, [DeadLetter(0, false)]);
    RunOne(Run(INIT, a + b), DeadLetter(0, false));
    assert EndsPaidAndRefunded(a + b + [DeadLetter(0, false)], History(1, 1, 0, 1, 0, 0));
  }

  /** What a reachable state satisfies. */
  lemma Sound(steps: seq<Step>)
    ensures WithdrawalLedger.LedgerInv(Run(INIT, steps)) && WithdrawalLedger.SettledOnce(Run(INIT, steps))
  {
    WithdrawalLedger.RunKeepsLedger(INIT, steps);
    WithdrawalLedger.RunKeepsWithdrawn(INIT, steps);
  }

  // A refusal that had moved the money, as after a timeout: its recording refunds.

  /** Worker `j` was told no; the history is `h`. */
  ghost predicate Refused(sys: System, j: nat, h: History) {
    && 0 in sys.db.rows && sys.db.rows[0].status == Processing && 0 !in sys.settled
    && j in sys.jobs && sys.jobs[j] == Job(0, SendFailed)
    && HistoryOf(sys, 0) == h
  }

  lemma RefusedRound(sys: System) returns (steps: seq<Step>)
    requires Stage(sys, 0, 0) && 0 !in sys.settled
    ensures Refused(Run(sys, steps), 0, History(1, 0, 1, 0, 0, 0))
  {
    steps := [Load(0, 0), Claim(0), SendRefused(0, true)];
    assert ActiveOn(sys.jobs, 0) == {};
    RunThree(sys, Load(0, 0), Claim(0), SendRefused(0, true));
    var claimed := LoadAndClaim(sys, 0);
    assert Next(claimed, SendRefused(0, true)).jobs[0] == Job(0, SendFailed);
  }

  /** The recording of a refusal, written out. */
  lemma RefusalRecorded(sys: System, j: nat, h: History)
    requires Refused(sys, j, h)
    ensures Next(sys, Settle(j, false)) == Goto(sys.(db := MarkFailedTx(sys.db, 0).0), j, Ended)
  {
  }

  lemma RefusalRefunds(sys: System, j: nat, h: History)
    requires Refused(sys, j, h) && WithdrawalLedger.DbInv(sys.db)
    ensures
      var sys' := Next(sys, Settle(j, false));
      && 0 in sys'.db.rows && sys'.db.rows[0].status == Failed && 0 !in sys'.settled && HistoryOf(sys', 0) == h
      && sys'.jobs == sys.jobs[j := Job(0, Ended)]
  {
    RefusalRecorded(sys, j, h);
    WithdrawalLedger.RefundCommits(sys.db, 0, {Queued, Processing}, Failed, WithdrawRefund);
  }

  lemma AmbiguousRefusalIsRefunded()
    ensures exists steps :: EndsPaidAndRefunded(steps, History(1, 0, 1, 0, 0, 0))
  {
    var a := Setup();
    var b := RefusedRound(Run(INIT, a));
    RunAppend(INIT, a, b);
    Sound(a + b);
    RefusalRefunds(Run(INIT, a + b), 0, History(1, 0, 1, 0, 0, 0));
    RunAppend(INIT, a + b, [Settle(0, false)]);
    RunOne(Run(INIT, a + b), Settle(0, false));
    assert EndsPaidAndRefunded(a + b + [Settle(0, false)], History(1, 0, 1, 0, 0, 0));
  }

  // An overlapping claim: worker 1 is told ok, worker 2 no, and 2 records first.

  lemma SecondIsRefused(sys: System) returns (steps: seq<Step>)
    requires Stage(sys, 0, 1) && 0 !in sys.settled
    ensures Refused(Run(sys, steps), 2, History(2, 1, 0, 0, 1, 0))
    ensures 1 in Run(sys, steps).jobs && Run(sys, steps).jobs[1] == Job(0, SentOk)
  {
    steps := [Load(2, 0), Claim(2), SendRefused(2, false)];
    assert 1 in ActiveOn(sys.jobs, 0);
    RunThree(sys, Load(2, 0), Claim(2), SendRefused(2, false));
    var claimed := LoadAndClaim(sys, 2);
    assert Next(claimed, SendRefused(2, false)).jobs == sys.jobs[2 := Job(0, SendFailed)];
  }

  /** A worker comes to record its ok after the row has failed. */
  lemma LateOkChangesNothing(sys: System, j: nat)
    requires j in sys.jobs && sys.jobs[j] == Job(0, SentOk) && 0 in sys.db.rows && sys.db.rows[0].status == Failed
    ensures Next(sys, Settle(j, false)) == Goto(sys, j, Ended)
  {
  }

  lemma BothRecord(sys: System, h: History) returns (steps: seq<Step>)
    requires Refused(sys, 2, h) && 1 in sys.jobs && sys.jobs[1] == Job(0, SentOk) && h.oks > 0
    requires WithdrawalLedger.DbInv(sys.db)
    ensures PaidAndRefunded(Run(sys, steps), 0) && HistoryOf(Run(sys, steps), 0) == h
  {
    RefusalRefunds(sys, 2, h);
    var failed := Next(sys, Settle(2, false));
    RunOne(sys, Settle(2, false));
    LateOkChangesNothing(failed, 1);
    RunOne(failed, Settle(1, false));
    RunAppend(sys, [Settle(2, false)], [Settle(1, false)]);
    steps := [Settle(2, false)] + [Settle(1, false)];
  }

  lemma OverlapIsRefunded()
    ensures exists steps :: EndsPaidAndRefunded(steps, History(2, 1, 0, 0, 1, 0))
  {
    var a := Setup();
    var b := LiveRounds(Run(INIT, a), 0, 1);
    RunAppend(INIT, a, b);
    NothingSettled(a + b);
    var c := SecondIsRefused(Run(INIT, a + b));
    RunAppend(INIT, a + b, c);
    Sound(a + b + c);
    var d := BothRecord(Run(INIT, a + b + c), History(2, 1, 0, 0, 1, 0));
    RunAppend(INIT, a + b + c, d);
    assert EndsPaidAndRefunded(a + b + c + d, History(2, 1, 0, 0, 1, 0));
  }

  /** A row that is still queued or processing has not settled. */
  lemma NothingSettled(steps: seq<Step>)
    requires 0 in Run(INIT, steps).db.rows && Run(INIT, steps).db.rows[0].status in {Queued, Processing}
    ensures 0 !in Run(INIT, steps).settled
  {
    Sound(steps);
  }

  // A dead letter while the worker sends: the row fails, and then the worker is told ok.

  /** Worker 0 is about to send a row that its dead letter has already refunded. */
  ghost predicate SendsFailed(sys: System) {
    && 0 in sys.db.rows && sys.db.rows[0].status == Failed && 0 !in sys.settled
    && 0 in sys.jobs && sys.jobs[0] == Job(0, Claimed)
    && HistoryOf(sys, 0) == History(0, 0, 0, 0, 0, 1)
  }

  lemma DeadLetterInterrupts(sys: System, claimed: System)
    requires Stage(sys, 0, 0) && WithdrawalLedger.LedgerInv(claimed) && 0 !in claimed.settled
    requires 0 in claimed.db.rows && claimed.db.rows[0].status == Processing
    requires claimed.jobs == sys.jobs[0 := Job(0, Claimed)] && HistoryOf(claimed, 0) == HistoryOf(sys, 0)
    ensures SendsFailed(Next(claimed, DeadLetter(0, false)))
  {
    assert 0 in ActiveOn(claimed.jobs, 0);
    WithdrawalLedger.RefundCommits(claimed.db, 0, {Queued, Processing}, Failed, WithdrawRefund);
  }

  lemma InterruptedRound(sys: System) returns (steps: seq<Step>)
    requires Stage(sys, 0, 0) && WithdrawalLedger.LedgerInv(sys) && 0 !in sys.settled
    ensures SendsFailed(Run(sys, steps))
  {
    steps := [Load(0, 0), Claim(0), DeadLetter(0, false)];
    assert ActiveOn(sys.jobs, 0) == {};
    RunThree(sys, Load(0, 0), Claim(0), DeadLetter(0, false));
    var claimed := LoadAndClaim(sys, 0);
    WithdrawalLedger.StepKeepsLedger(sys, Load(0, 0));
    WithdrawalLedger.StepKeepsLedger(Next(sys, Load(0, 0)), Claim(0));
    DeadLetterInterrupts(sys, claimed);
  }

  lemma OkAfterRefund(sys: System)
    requires SendsFailed(sys)
    ensures
      var sys' := Next(sys, SendOk(0));
      && PaidAndRefunded(sys', 0) && HistoryOf(sys', 0) == History(1, 1, 0, 0, 0, 1)
      && 0 in sys'.jobs && sys'.jobs[0] == Job(0, SentOk)
  {
  }

  lemma OkRecorded(sys: System) returns (steps: seq<Step>)
    requires SendsFailed(sys)
    ensures PaidAndRefunded(Run(sys, steps), 0) && HistoryOf(Run(sys, steps), 0) == History(1, 1, 0, 0, 0, 1)
  {
    OkAfterRefund(sys);
    LateOkChangesNothing(Next(sys, SendOk(0)), 0);
    RunOne(sys, SendOk(0));
    RunOne(Next(sys, SendOk(0)), Settle(0, false));
    RunAppend(sys, [SendOk(0)], [Settle(0, false)]);
    steps := [SendOk(0)] + [Settle(0, false)];
  }

  lemma InterruptIsRefunded()
    ensures exists steps :: EndsPaidAndRefunded(steps, History(1, 1, 0, 0, 0, 1))
  {
    var a := Setup();
    Sound(a);
    var b := InterruptedRound(Run(INIT, a));
    RunAppend(INIT, a, b);
    var c := OkRecorded(Run(INIT, a + b));
    RunAppend(INIT, a + b, c);
    assert EndsPaidAndRefunded(a + b + c, History(1, 1, 0, 0, 0, 1));
  }

  /**
   * No run within the four counts refunds, by the job or its dead letter, a withdrawal that
   * was paid, exactly when all four are zero: no lost answer, no overlapping claim, no dead
   * letter during a send, no refusal that had moved the money.
   */
  lemma NeverPaidAndRefundedIff(lost: nat, overlapped: nat, interrupted: nat, moved: nat)
    ensures
      (forall steps, id :: Within(Run(INIT, steps), id, lost, overlapped, interrupted, moved)
        ==> !PaidAndRefunded(Run(INIT, steps), id))
      <==> lost == 0 && overlapped == 0 && interrupted == 0 && moved == 0
  {
    if lost == 0 && overlapped == 0 && interrupted == 0 && moved == 0 {
      forall steps, id: nat | Within(Run(INIT, steps), id, 0, 0, 0, 0) ensures !PaidAndRefunded(Run(INIT, steps), id) {
        if id in Run(INIT, steps).db.rows { WithdrawalSends.OneSendReturns(steps, id); }
      }
    } else {
      LostAnswerIsRefunded();
      OverlapIsRefunded();
      InterruptIsRefunded();
      AmbiguousRefusalIsRefunded();
      var h := if lost > 0 then History(1, 1, 0, 1, 0, 0)
        else if overlapped > 0 then History(2, 1, 0, 0, 1, 0)
        else if interrupted > 0 then History(1, 1, 0, 0, 0, 1)
        else History(1, 0, 1, 0, 0, 0);
      var steps :| EndsPaidAndRefunded(steps, h);
      assert Within(Run(INIT, steps), 0, lost, overlapped, interrupted, moved);
    }
  }
}
