/**
 * The withdrawal transactions as the job, the watcher and the admin panel run them: rows
 * updated in place, each method tied to the transaction function of `Withdrawals`.
 */
module WithdrawalStore {
  import opened Common
  import opened Books
  import opened Withdrawals

  /** What the gateway answers, with whether a refusal moved the money; `Unreachable` is thrown before any of it
      reached the wire. */
  datatype GatewayReply = PaidOut | RefusedPayout(moved: bool) | Unreachable

  /** One row of a watcher sweep with the chain's answer for it. */
  datatype Sighting = Sighting(id: nat, reply: ChainReply)

  /** A sweep handles the sightings of one chain head in order. */
  function SweepAll(db: Db, head: nat, sightings: seq<Sighting>): Db
    decreases |sightings|
  {
    if sightings == [] then db
    else
      var n := |sightings| - 1;
      WatchTx(SweepAll(db, head, sightings[..n]), sightings[n].id, head, sightings[n].reply)
  }

  /** A whole `handle` with no other process running: the rows, and whether it threw. */
  function HandleAlone(db: Db, id: nat, reply: GatewayReply): (Db, bool) {
    if id !in db.rows || db.rows[id].status !in {Queued, Processing} then (db, false)
    else if db.rows[id].requiresReview then (SetStatus(db, id, Hold), false)
    else
      var claimed := ClaimTx(db, id).0;
      match reply
      case PaidOut => (SettleTx(claimed, id).0, false)
      case RefusedPayout(_) => (MarkFailedTx(claimed, id).0, false)
      case Unreachable => (claimed, true)
  }

  class Store {
    var rows: map<nat, Row>
    var users: map<nat, User>
    var ledger: seq<LedgerRow>

    function Contents(): Db
      reads this
    {
      Db(rows, Book(users, ledger))
    }

    constructor ()
      ensures Contents() == INIT.db
    {
      rows, users, ledger := map[], map[], [];
    }

    /** The ledger insert and balance change shared by every refund and by the request. */
    method PostRow(user: nat, delta: int, reason: Reason, id: nat) returns (ok: bool)
      requires AreaOf(reason) == Payouts
      modifies this`users, this`ledger
      ensures ok == Post(old(Contents().books), user, delta, reason, WithdrawalRef(id)).Some?
      ensures Contents()
        == old(Contents()).(books := PostOrKeep(old(Contents().books), user, delta, reason, WithdrawalRef(id)))
    {
      if user !in users || !IndexFree(ledger, reason, WithdrawalRef(id)) {
        return false;
      }
      ledger := ledger + [LedgerRow(user, delta, reason, WithdrawalRef(id))];
      users := users[user := users[user].(balance := users[user].balance + delta)];
      return true;
    }

    /** WithdrawController::store from its transaction on. */
    method Request(id: nat, user: nat, amount: nat, route: Route, needsReview: bool)
      modifies this
      ensures Contents() == RequestTx(old(Contents()), id, user, amount, route, needsReview)
    {
      if id in rows || amount < 1 {
        return;
      }
      var rows0 := rows;
      rows := rows[id := Row(user, amount, route, if needsReview then Hold else Queued, needsReview, 0, 0)];
      var ok := PostRow(user, 0 - amount, WithdrawRequest, id);
      if !ok {
        rows := rows0;
      }
    }

    /** The guarded transition with refund used by the job, the watcher and the reject action. */
    method Refund(id: nat, from: set<Status>, to: Status, reason: Reason) returns (marked: bool)
      requires AreaOf(reason) == Payouts
      modifies this
      ensures (Contents(), marked) == RefundTx(old(Contents()), id, from, to, reason)
    {
      if id !in rows || rows[id].status !in from {
        return false;
      }
      var rows0 := rows;
      rows := rows[id := rows[id].(status := to)];
      marked := PostRow(rows[id].user, rows[id].amount, reason, id);
      if !marked {
        rows := rows0;
      }
    }

    /** The worker's claim. */
    method Claim(id: nat) returns (claimed: bool)
      modifies this`rows
      ensures (Contents(), claimed) == ClaimTx(old(Contents()), id)
    {
      if id !in rows || rows[id].status !in {Queued, Processing} {
        return false;
      }
      rows := rows[id := rows[id].(status := Processing, attempts := rows[id].attempts + 1)];
      return true;
    }

    /** The worker's settlement of a payout the gateway confirmed. */
    method Settle(id: nat) returns (settled: bool)
      modifies this`rows, this`users
      ensures (Contents(), settled) == SettleTx(old(Contents()), id)
    {
      if id !in rows || rows[id].status != Processing || rows[id].user !in users {
        return false;
      }
      var row := rows[id];
      rows := rows[id := row.(status := if IsOnchain(row.route) then Broadcast else Sent)];
      var user := users[row.user];
      users := users[row.user := user.(totalWithdrawn := user.totalWithdrawn + row.amount)];
      return true;
    }

    /** ProcessWithdrawalJob::handle; it reports whether the gateway's exception escaped. */
    method Handle(id: nat, reply: GatewayReply) returns (threw: bool)
      modifies this
      ensures (Contents(), threw) == HandleAlone(old(Contents()), id, reply)
    {
      if id !in rows || rows[id].status !in {Queued, Processing} {
        return false;
      }
      if rows[id].requiresReview {
        rows := rows[id := rows[id].(status := Hold)];
        return false;
      }
      var claimed := Claim(id);
      match reply {
        case Unreachable =>
          return true;
        case PaidOut =>
          var _ := Settle(id);
        case RefusedPayout(_) =>
          var _ := Refund(id, {Queued, Processing}, Failed, WithdrawRefund);
      }
      return false;
    }

    /** ProcessWithdrawalJob::failed. */
    method DeadLetter(id: nat)
      modifies this
      ensures Contents() == MarkFailedTx(old(Contents()), id).0
    {
      if id !in rows || rows[id].status !in {Queued, Processing} {
        return;
      }
      var _ := Refund(id, {Queued, Processing}, Failed, WithdrawRefund);
    }

    /** WatchOnchainConfirmationsJob::advanceOrPromote. */
    method AdvanceOrPromote(id: nat, confirmations: nat)
      requires id in rows && Watched(rows[id].route)
      modifies this`rows
      ensures Contents() == AdvanceTx(old(Contents()), id, confirmations).0
    {
      if confirmations < Finality(rows[id].route) {
        rows := rows[id := rows[id].(confirmationsSeen := confirmations)];
        return;
      }
      if rows[id].status == Broadcast {
        rows := rows[id := rows[id].(status := Sent, confirmationsSeen := confirmations)];
      }
    }

    /** WatchOnchainConfirmationsJob::refundReverted. */
    method RefundReverted(id: nat, confirmations: nat)
      modifies this
      ensures Contents() == RevertTx(old(Contents()), id, confirmations).0
    {
      var marked := Refund(id, {Broadcast}, Failed, WithdrawRefund);
      if marked {
        rows := rows[id := rows[id].(confirmationsSeen := confirmations)];
      }
    }

    /** One chain's sweep over its broadcast rows. */
    method Sweep(head: nat, sightings: seq<Sighting>)
      modifies this
      ensures Contents() == SweepAll(old(Contents()), head, sightings)
    {
      var n := 0;
      while n < |sightings|
        invariant n <= |sightings|
        invariant Contents() == SweepAll(old(Contents()), head, sightings[..n])
      {
        var s := sightings[n];
        assert sightings[..n + 1][..n] == sightings[..n];
        if s.id in rows && Watched(rows[s.id].route) && s.reply.Mined? && s.reply.block != 0 {
          var confirmations := Max(0, head - s.reply.block + 1);
          if s.reply.reverted && rows[s.id].route != OnchainBtc {
            RefundReverted(s.id, confirmations);
          } else {
            AdvanceOrPromote(s.id, confirmations);
          }
        }
        n := n + 1;
      }
      assert sightings[..n] == sightings;
    }

    /** The approve action. */
    method Approve(id: nat) returns (changed: bool)
      modifies this`rows
      ensures (Contents(), changed) == ApproveTx(old(Contents()), id)
    {
      if id !in rows || rows[id].status != Hold {
        return false;
      }
      rows := rows[id := rows[id].(status := Queued, requiresReview := false)];
      return true;
    }

    /** The reject action. */
    method Reject(id: nat) returns (settled: bool)
      modifies this
      ensures (Contents(), settled) == RejectTx(old(Contents()), id)
    {
      settled := Refund(id, {Hold, Queued}, Rejected, WithdrawRejected);
      if settled {
        rows := rows[id := rows[id].(requiresReview := false)];
      }
    }
  }

  /** A sweep is a run of watcher steps, so what holds of every run holds of every sweep. */
  lemma {:induction false} SweepIsRun(sys: System, head: nat, sightings: seq<Sighting>)
    ensures exists steps :: Run(sys, steps) == sys.(db := SweepAll(sys.db, head, sightings))
  {
    if sightings == [] {
      assert Run(sys, []) == sys.(db := SweepAll(sys.db, head, sightings));
    } else {
      var n := |sightings| - 1;
      SweepIsRun(sys, head, sightings[..n]);
      var before :| Run(sys, before) == sys.(db := SweepAll(sys.db, head, sightings[..n]));
      var step := Watch(sightings[n].id, head, sightings[n].reply, false);
      RunAppend(sys, before, [step]);
      var mid := Run(sys, before);
      assert [step][1..] == [];
      assert Run(mid, [step]) == Next(mid, step);
      assert Run(sys, before + [step]) == sys.(db := SweepAll(sys.db, head, sightings));
    }
  }

  /** The interleaved steps of one `handle`; the ones that do not apply change nothing. */
  function HandleSteps(j: nat, id: nat, reply: GatewayReply): seq<Step> {
    var send := match reply
      case PaidOut => SendOk(j)
      case RefusedPayout(moved) => SendRefused(j, moved)
      case Unreachable => SendUnreachable(j);
    [Load(j, id), HoldBack(j), Claim(j)] + [send, Settle(j, false)]
  }

  lemma RunHandleSteps(sys: System, j: nat, id: nat, reply: GatewayReply)
    ensures
      var s := HandleSteps(j, id, reply);
      Run(sys, s) == Next(Next(Next(Next(Next(sys, s[0]), s[1]), s[2]), s[3]), s[4])
  {
    var s := HandleSteps(j, id, reply);
    RunAppend(sys, s[..3], s[3..]);
    assert s == s[..3] + s[3..];
    assert s[..3] == [s[0], s[1], s[2]] && s[3..] == [s[3], s[4]];
    RunThree(sys, s[0], s[1], s[2]);
    var mid := Run(sys, s[..3]);
    assert [s[3], s[4]][1..] == [s[4]] && [s[4]][1..] == [];
    assert Run(Next(mid, s[3]), [s[4]]) == Next(Next(mid, s[3]), s[4]);
  }

  /** The worker's reads and its claim. */
  lemma LoadAndClaim(sys: System, j: nat, id: nat)
    requires j !in sys.jobs
    ensures
      var sys' := Next(Next(Next(sys, Load(j, id)), HoldBack(j)), Claim(j));
      if id !in sys.db.rows || sys.db.rows[id].status !in {Queued, Processing} then sys' == sys
      else if sys.db.rows[id].requiresReview then sys'.db == SetStatus(sys.db, id, Hold) && At(sys', j, Ended)
      else sys'.db == ClaimTx(sys.db, id).0 && j in sys'.jobs && sys'.jobs[j] == Job(id, Claimed)
  {
    var s1 := Next(sys, Load(j, id));
    if id in sys.db.rows && sys.db.rows[id].status in {Queued, Processing} {
      assert s1 == sys.(jobs := sys.jobs[j := Job(id, Loaded(sys.db.rows[id].requiresReview))]);
      if !sys.db.rows[id].requiresReview { assert Next(s1, HoldBack(j)) == s1; }
    }
  }

  /** The gateway call and the transaction that records its answer. */
  lemma SendAndRecord(sys: System, j: nat, id: nat, reply: GatewayReply)
    requires j in sys.jobs && sys.jobs[j] == Job(id, Claimed)
    ensures
      var send := HandleSteps(j, id, reply)[3];
      var sys' := Next(Next(sys, send), Settle(j, false));
      && sys'.db == (match reply
                     case PaidOut => SettleTx(sys.db, id).0
                     case RefusedPayout(_) => MarkFailedTx(sys.db, id).0
                     case Unreachable => sys.db)
      && At(sys', j, Ended)
  {
  }

  /** The in-place job is one run of the interleaved system. */
  lemma HandleIsRun(sys: System, j: nat, id: nat, reply: GatewayReply)
    requires j !in sys.jobs
    ensures Run(sys, HandleSteps(j, id, reply)).db == HandleAlone(sys.db, id, reply).0
  {
    RunHandleSteps(sys, j, id, reply);
    LoadAndClaim(sys, j, id);
    var s := HandleSteps(j, id, reply);
    var mid := Next(Next(Next(sys, s[0]), s[1]), s[2]);
    if j in mid.jobs && mid.jobs[j] == Job(id, Claimed) {
      SendAndRecord(mid, j, id, reply);
    } else {
      assert Next(Next(mid, s[3]), s[4]) == mid;
    }
  }
}
