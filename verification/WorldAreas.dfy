/**
 * Each area's view of a run of the whole platform is a run of that area alone, in which the
 * other areas appear as rows they post and payouts they count. So everything proved about
 * the runs of one area holds while all three share the users and the ledger.
 */
module WorldAreas {
  import opened Common
  import opened Books
  import opened World
  import EarnClaim
  import EarnClaimTokens
  import Withdrawals
  import AdBudget
  import AdLedger
  import Commission

  // ----- What each area does to the books -----

  /** The commission of a credit, as a move. */
  lemma SettleMoves(db: EarnClaim.Db, user: nat, reward: int, key: SessionKey, rates: Commission.Rates)
    returns (moves: seq<Move>)
    requires user in db.books.users
    ensures MovesOf(moves, Earning)
    ensures var out := EarnClaim.SettleTx(db, user, reward, key, rates);
      out.Some? ==> MovingAll(db.books, moves) == out.value.books
  {
    var commission := Commission.Of(reward, rates);
    var referrer := db.books.users[user].referrer;
    moves := [];
    if referrer.Some? && commission > 0 {
      moves := [Posting(referrer.value, commission, ReferralCommission, SessionRef(key))];
      MovingOne(db.books, moves[0]);
    }
  }

  lemma CreditMoves(db: EarnClaim.Db, key: SessionKey, user: nat, reward: int, rates: Commission.Rates, fails: bool)
    returns (moves: seq<Move>)
    ensures MovesOf(moves, Earning)
    ensures var out := EarnClaim.CreditTx(db, key, user, reward, rates, fails);
      out.Committed? ==> MovingAll(db.books, moves) == out.db.books
  {
    moves := [];
    if EarnClaim.CreditTx(db, key, user, reward, rates, fails).Committed? {
      var first := Posting(user, reward, Reward(key.surface), SessionRef(key));
      var paid := db.(sessions := db.sessions[key := db.sessions[key].(status := EarnClaim.Verified)],
                      books := Moving(db.books, first));
      var rest := SettleMoves(paid, user, reward, key, rates);
      moves := [first] + rest;
      assert moves[1..] == rest;
    }
  }

  lemma EarnMoves(sys: EarnClaim.System, step: EarnClaim.Step) returns (moves: seq<Move>)
    requires !step.Register? && !step.PostElsewhere? && !step.PayoutElsewhere?
    ensures MovesOf(moves, Earning) && MovingAll(sys.db.books, moves) == EarnClaim.Next(sys, step).db.books
  {
    moves := [];
    if step.Credit? && EarnClaim.At(sys, step.request, EarnClaim.AtCredit) {
      var q := sys.requests[step.request];
      if EarnClaim.CreditTx(sys.db, q.key, q.user, q.reward, step.rates, step.fault.Fails?).Committed? {
        moves := CreditMoves(sys.db, q.key, q.user, q.reward, step.rates, step.fault.Fails?);
      }
    }
  }

  /** A refund is a row, or nothing. */
  lemma RefundMoves(db: Withdrawals.Db, id: nat, from: set<Withdrawals.Status>, to: Withdrawals.Status, reason: Reason)
    returns (moves: seq<Move>)
    requires AreaOf(reason) == Payouts
    ensures MovesOf(moves, Payouts)
      && MovingAll(db.books, moves) == Withdrawals.RefundTx(db, id, from, to, reason).0.books
  {
    moves := [];
    if Withdrawals.RefundTx(db, id, from, to, reason).1 {
      moves := [Posting(db.rows[id].user, db.rows[id].amount, reason, WithdrawalRef(id))];
      MovingOne(db.books, moves[0]);
    }
  }

  lemma SettlementMoves(db: Withdrawals.Db, id: nat) returns (moves: seq<Move>)
    ensures MovesOf(moves, Payouts) && MovingAll(db.books, moves) == Withdrawals.SettleTx(db, id).0.books
  {
    moves := [];
    if Withdrawals.SettleTx(db, id).1 {
      moves := [Counting(db.rows[id].user, db.rows[id].amount)];
      MovingOne(db.books, moves[0]);
    }
  }

  lemma RequestMoves(db: Withdrawals.Db, id: nat, user: nat, amount: nat, route: Withdrawals.Route, needsReview: bool)
    returns (moves: seq<Move>)
    ensures MovesOf(moves, Payouts)
    ensures MovingAll(db.books, moves) == Withdrawals.RequestTx(db, id, user, amount, route, needsReview).books
  {
    moves := [];
    if id !in db.rows && amount >= 1 {
      moves := [Posting(user, 0 - amount, WithdrawRequest, WithdrawalRef(id))];
      MovingOne(db.books, moves[0]);
    }
  }

  lemma PayoutMoves(sys: Withdrawals.System, step: Withdrawals.Step) returns (moves: seq<Move>)
    requires MayPay(step)
    ensures MovesOf(moves, Payouts) && MovingAll(sys.db.books, moves) == Withdrawals.Next(sys, step).db.books
  {
    match step
    case Request(id, user, amount, route, needsReview) =>
      moves := RequestMoves(sys.db, id, user, amount, route, needsReview);
    case Settle(j, aborts) => moves := RecordMoves(sys, j, aborts);
    case DeadLetter(id, aborts) =>
      moves := RefundMoves(sys.db, id, {Withdrawals.Queued, Withdrawals.Processing}, Withdrawals.Failed,
        WithdrawRefund);
      if aborts { moves := []; }
    case Watch(id, head, reply, aborts) => moves := WatchMoves(sys, step);
    case Reject(id, aborts) =>
      moves := RefundMoves(sys.db, id, {Withdrawals.Hold, Withdrawals.Queued}, Withdrawals.Rejected, WithdrawRejected);
      if aborts { moves := []; }
    case _ => moves := [];
  }

  lemma RecordMoves(sys: Withdrawals.System, j: nat, aborts: bool) returns (moves: seq<Move>)
    ensures MovesOf(moves, Payouts) && MovingAll(sys.db.books, moves) == Withdrawals.SettleStep(sys, j, aborts).db.books
  {
    moves := [];
    if !aborts && Withdrawals.At(sys, j, Withdrawals.SentOk) {
      moves := SettlementMoves(sys.db, sys.jobs[j].id);
    } else if !aborts && Withdrawals.At(sys, j, Withdrawals.SendFailed) {
      moves := RefundMoves(sys.db, sys.jobs[j].id, {Withdrawals.Queued, Withdrawals.Processing}, Withdrawals.Failed,
        WithdrawRefund);
    }
  }

  lemma WatchMoves(sys: Withdrawals.System, step: Withdrawals.Step) returns (moves: seq<Move>)
    requires step.Watch?
    ensures MovesOf(moves, Payouts) && MovingAll(sys.db.books, moves) == Withdrawals.Next(sys, step).db.books
  {
    var refund := RefundMoves(sys.db, step.id, {Withdrawals.Broadcast}, Withdrawals.Failed, WithdrawRefund);
    moves := if Withdrawals.Next(sys, step).db.books == sys.db.books then [] else refund;
  }

  lemma AdMoves(db: AdLedger.Db, step: AdLedger.Step) returns (moves: seq<Move>)
    requires MayAdvertise(step)
    ensures MovesOf(moves, Ads) && MovingAll(db.books, moves) == AdLedger.Next(db, step).books
  {
    moves := [];
    if step.Fund? && AdLedger.Next(db, step) != db {
      var cost := Commission.CostPerView(step.reward, step.rates) * step.views;
      moves := [Posting(step.owner, -cost, AdFunding, AdRef(step.id))];
      MovingOne(db.books, moves[0]);
    } else if step.RejectAd? && AdLedger.RejectTx(db, step.id).1 && AdBudget.RefundOf(db.campaigns[step.id]) > 0 {
      moves := [Posting(db.campaigns[step.id].owner, AdBudget.RefundOf(db.campaigns[step.id]), AdRefund,
        AdRef(step.id))];
      MovingOne(db.books, moves[0]);
    }
  }

  // ----- How the other areas see it -----

  lemma OneTakesTurns(sys: EarnClaim.System, step: EarnClaim.Step)
    requires step.VerifyRead? ==> forall v :: v in sys.verifiers ==> sys.verifiers[v] != step.challengeId
    ensures EarnClaimTokens.VerifiersTakeTurns(sys, [step])
  {
    assert EarnClaimTokens.VerifiersTakeTurns(EarnClaim.Next(sys, step), [step][1..]);
  }

  lemma {:induction false} EarnAbsorbs(sys: EarnClaim.System, moves: seq<Move>, area: Area)
    returns (steps: seq<EarnClaim.Step>)
    requires MovesOf(moves, area) && area != Earning
    ensures EarnClaim.Run(sys, steps) == sys.(db := sys.db.(books := MovingAll(sys.db.books, moves)))
    ensures EarnClaimTokens.VerifiersTakeTurns(sys, steps)
    decreases |moves|
  {
    steps := [];
    if moves != [] {
      var m := moves[0];
      var step := match m
        case Posting(user, delta, reason, ref) => EarnClaim.PostElsewhere(user, delta, reason, ref)
        case Counting(user, amount) => EarnClaim.PayoutElsewhere(user, amount);
      var mid := EarnClaim.Next(sys, step);
      assert MoveOf(m, area);
      assert mid == sys.(db := sys.db.(books := Moving(sys.db.books, m)));
      var rest := EarnAbsorbs(mid, moves[1..], area);
      EarnClaim.RunOne(sys, step);
      EarnClaim.RunAppend(sys, [step], rest);
      OneTakesTurns(sys, step);
      EarnClaimTokens.TurnsAppend(sys, [step], rest);
      steps := [step] + rest;
    }
  }

  lemma {:induction false} PayoutsAbsorb(sys: Withdrawals.System, moves: seq<Move>, area: Area)
    returns (steps: seq<Withdrawals.Step>)
    requires MovesOf(moves, area) && area != Payouts
    ensures Withdrawals.Run(sys, steps) == sys.(db := sys.db.(books := MovingAll(sys.db.books, moves)))
    decreases |moves|
  {
    steps := [];
    if moves != [] {
      var m := moves[0];
      assert MoveOf(m, area);
      var step := Withdrawals.PostElsewhere(m.user, m.delta, m.reason, m.ref);
      var mid := Withdrawals.Next(sys, step);
      assert mid == sys.(db := sys.db.(books := Moving(sys.db.books, m)));
      var rest := PayoutsAbsorb(mid, moves[1..], area);
      Withdrawals.RunOne(sys, step);
      Withdrawals.RunAppend(sys, [step], rest);
      steps := [step] + rest;
    }
  }

  lemma {:induction false} AdsAbsorb(db: AdLedger.Db, moves: seq<Move>, area: Area) returns (steps: seq<AdLedger.Step>)
    requires MovesOf(moves, area) && area != Ads
    ensures AdLedger.Run(db, steps) == db.(books := MovingAll(db.books, moves))
    ensures forall i :: 0 <= i < |steps| ==> AdLedger.SaneCharge(steps[i])
    decreases |moves|
  {
    steps := [];
    if moves != [] {
      var m := moves[0];
      var step := match m
        case Posting(user, delta, reason, ref) => AdLedger.PostElsewhere(user, delta, reason, ref)
        case Counting(user, amount) => AdLedger.PayoutElsewhere(user, amount);
      assert MoveOf(m, area);
      var mid := AdLedger.Next(db, step);
      assert mid == db.(books := Moving(db.books, m));
      var rest := AdsAbsorb(mid, moves[1..], area);
      AdLedger.RunOne(db, step);
      AdLedger.RunAppend(db, [step], rest);
      steps := [step] + rest;
    }
  }

  // ----- One step of the platform, seen by each area -----

  lemma WithEarnChangesEarning(w: World, s: EarnClaim.System)
    ensures EarnOf(WithEarn(w, s)) == s
    ensures PayoutsOf(WithEarn(w, s)) == PayoutsOf(w).(db := Withdrawals.Db(w.rows, s.db.books))
  {
  }

  /** The steps of the platform that are steps of earning. */
  predicate Earns(step: Step) {
    step.Earn? || step.OpenView? || step.Complete?
  }

  /** Neither a registration nor the appearance of another area. */
  predicate Own(s: EarnClaim.Step) {
    !s.Register? && !s.PostElsewhere? && !s.PayoutElsewhere?
  }

  /** The one step of earning that such a step takes, if it is enabled. */
  function EarningStep(w: World, step: Step): (s: Option<EarnClaim.Step>)
    requires Earns(step)
    ensures s.Some? ==> Own(s.value)
  {
    match step
    case Earn(s) => if MayEarn(w, s) then Some(s) else None
    case OpenView(id, view, viewer, token) =>
      if MayOpen(w, id, view, viewer) then Some(EarnClaim.StartSession(Key(view), viewer, token)) else None
    case Complete(r, fault, rates, snapshot) =>
      if MayComplete(w, r) then Some(EarnClaim.Credit(r, fault, rates)) else None
  }

  lemma EarningStepIs(w: World, step: Step)
    requires Earns(step)
    ensures
      var s, w' := EarningStep(w, step), Next(w, step);
      w' == (if s.None? then w
             else WithEarn(w, EarnClaim.Next(EarnOf(w), s.value)).(campaigns := w'.campaigns, views := w'.views))
  {
  }

  lemma EarningSeen(w: World, step: Step)
    requires Earns(step)
    ensures
      var s, w' := EarningStep(w, step), Next(w, step);
      && EarnOf(w') == (if s.Some? then EarnClaim.Next(EarnOf(w), s.value) else EarnOf(w))
      && w'.books == (if s.Some? then EarnClaim.Next(EarnOf(w), s.value).db.books else w.books)
      && PayoutsOf(w') == PayoutsOf(w).(db := Withdrawals.Db(w.rows, w'.books))
  {
    EarningStepIs(w, step);
    var s := EarningStep(w, step);
    if s.Some? { WithEarnChangesEarning(w, EarnClaim.Next(EarnOf(w), s.value)); }
  }

  /** The step starts no verifier on a challenge while another is at work on it. */
  ghost predicate TakesTurn(w: World, step: Step) {
    step.Earn? && step.earn.VerifyRead? ==> forall v :: v in w.verifiers ==> w.verifiers[v] != step.earn.challengeId
  }

  /** In the run of the platform no verifier starts on a challenge while another is at work on it. */
  ghost predicate VerifiersTakeTurns(w: World, steps: seq<Step>)
    decreases |steps|
  {
    steps != [] ==> TakesTurn(w, steps[0]) && VerifiersTakeTurns(Next(w, steps[0]), steps[1..])
  }

  lemma EarnFollows(w: World, step: Step) returns (steps: seq<EarnClaim.Step>)
    ensures EarnClaim.Run(EarnOf(w), steps) == EarnOf(Next(w, step))
    ensures TakesTurn(w, step) ==> EarnClaimTokens.VerifiersTakeTurns(EarnOf(w), steps)
  {
    var sys := EarnOf(w);
    match step
    case Register(u, referrer) =>
      steps := [EarnClaim.Register(u, referrer)];
      EarnClaim.RunOne(sys, steps[0]);
      OneTakesTurns(sys, steps[0]);
      WithEarnChangesEarning(w, EarnClaim.Next(sys, steps[0]));
    case Payout(s) =>
      steps := [];
      if MayPay(s) {
        var moves := PayoutMoves(PayoutsOf(w), s);
        steps := EarnAbsorbs(sys, moves, Payouts);
      }
    case Campaign(s) =>
      steps := [];
      if MayAdvertise(s) {
        var moves := AdMoves(AdsOf(w), s);
        steps := EarnAbsorbs(sys, moves, Ads);
      }
    case _ =>
      EarningSeen(w, step);
      steps := if EarningStep(w, step).Some? then [EarningStep(w, step).value] else [];
      if steps != [] {
        EarnClaim.RunOne(sys, steps[0]);
        if TakesTurn(w, step) { OneTakesTurns(sys, steps[0]); }
      }
  }

  lemma OptionalMoves(sys: EarnClaim.System, s: Option<EarnClaim.Step>) returns (moves: seq<Move>)
    requires s.Some? ==> Own(s.value)
    ensures MovesOf(moves, Earning)
    ensures MovingAll(sys.db.books, moves) == if s.Some? then EarnClaim.Next(sys, s.value).db.books else sys.db.books
  {
    moves := [];
    if s.Some? { moves := EarnMoves(sys, s.value); }
  }

  /** The moves of earning, whatever kind of step they come from. */
  lemma EarningMoves(w: World, step: Step) returns (moves: seq<Move>)
    requires Earns(step)
    ensures MovesOf(moves, Earning) && MovingAll(w.books, moves) == Next(w, step).books
  {
    EarningSeen(w, step);
    moves := OptionalMoves(EarnOf(w), EarningStep(w, step));
  }

  lemma PayoutsFollow(w: World, step: Step) returns (steps: seq<Withdrawals.Step>)
    ensures Withdrawals.Run(PayoutsOf(w), steps) == PayoutsOf(Next(w, step))
  {
    var sys := PayoutsOf(w);
    match step
    case Register(u, referrer) =>
      steps := [Withdrawals.Register(u, referrer)];
      Withdrawals.RunOne(sys, steps[0]);
    case Payout(s) =>
      steps := if MayPay(s) then [s] else [];
      Withdrawals.RunOne(sys, s);
    case Campaign(s) =>
      steps := [];
      if MayAdvertise(s) {
        var moves := AdMoves(AdsOf(w), s);
        steps := PayoutsAbsorb(sys, moves, Ads);
      }
    case _ =>
      var moves := EarningMoves(w, step);
      EarningSeen(w, step);
      steps := PayoutsAbsorb(sys, moves, Earning);
  }

  /** The change of a campaign that goes with an earning step, if any. */
  lemma CampaignChange(w: World, step: Step) returns (steps: seq<AdLedger.Step>)
    requires Earns(step)
    ensures AdLedger.Run(AdsOf(w), steps) == AdsOf(w).(campaigns := Next(w, step).campaigns)
    ensures forall i :: 0 <= i < |steps| ==> AdLedger.SaneCharge(steps[i])
  {
    steps := [];
    if step.OpenView? && MayOpen(w, step.id, step.view, step.viewer) {
      steps := [AdLedger.Change(step.id, AdBudget.StartStep(step.view))];
      AdLedger.RunOne(AdsOf(w), steps[0]);
    } else if step.Complete? && MayComplete(w, step.request) && Commits(w, step.request, step.fault, step.rates) {
      var id := w.views[w.requests[step.request].key];
      steps := [AdLedger.Change(id, HookStep(w, step.request, step.rates, step.snapshot))];
      AdLedger.RunOne(AdsOf(w), steps[0]);
    }
  }

  /** No campaign funded in the run was charged less than nothing. */
  predicate SaneCharges(steps: seq<Step>) {
    forall i :: 0 <= i < |steps| && steps[i].Campaign? ==> AdLedger.SaneCharge(steps[i].ad)
  }

  lemma AdsFollow(w: World, step: Step) returns (steps: seq<AdLedger.Step>)
    ensures AdLedger.Run(AdsOf(w), steps) == AdsOf(Next(w, step))
    ensures SaneCharges([step]) ==> forall i :: 0 <= i < |steps| ==> AdLedger.SaneCharge(steps[i])
  {
    var db := AdsOf(w);
    match step
    case Register(u, referrer) =>
      steps := [AdLedger.Register(u, referrer)];
      AdLedger.RunOne(db, steps[0]);
    case Campaign(s) =>
      assert [step][0] == step;
      steps := if MayAdvertise(s) then [s] else [];
      AdLedger.RunOne(db, s);
    case Payout(s) =>
      steps := [];
      if MayPay(s) {
        var moves := PayoutMoves(PayoutsOf(w), s);
        steps := AdsAbsorb(db, moves, Payouts);
      }
    case _ =>
      var change := CampaignChange(w, step);
      var moves := EarningMoves(w, step);
      var rest := AdsAbsorb(AdLedger.Run(db, change), moves, Earning);
      AdLedger.RunAppend(db, change, rest);
      steps := change + rest;
  }

  // ----- Runs -----

  /** The earning part of a run of the platform is a run of `EarnClaim`, with turns taken if they are taken. */
  lemma {:induction false} EarningRuns(w: World, steps: seq<Step>) returns (own: seq<EarnClaim.Step>)
    ensures EarnClaim.Run(EarnOf(w), own) == EarnOf(Run(w, steps))
    ensures VerifiersTakeTurns(w, steps) ==> EarnClaimTokens.VerifiersTakeTurns(EarnOf(w), own)
    decreases |steps|
  {
    own := [];
    if steps != [] {
      var first := EarnFollows(w, steps[0]);
      var rest := EarningRuns(Next(w, steps[0]), steps[1..]);
      EarnClaim.RunAppend(EarnOf(w), first, rest);
      if VerifiersTakeTurns(w, steps) { EarnClaimTokens.TurnsAppend(EarnOf(w), first, rest); }
      own := first + rest;
    }
  }

  /** The payout part of a run of the platform is a run of `Withdrawals`. */
  lemma {:induction false} PayoutsRun(w: World, steps: seq<Step>) returns (own: seq<Withdrawals.Step>)
    ensures Withdrawals.Run(PayoutsOf(w), own) == PayoutsOf(Run(w, steps))
    decreases |steps|
  {
    own := [];
    if steps != [] {
      var first := PayoutsFollow(w, steps[0]);
      var rest := PayoutsRun(Next(w, steps[0]), steps[1..]);
      Withdrawals.RunAppend(PayoutsOf(w), first, rest);
      own := first + rest;
    }
  }

  /** The campaigns of a run of the platform are those of a run of `AdLedger`. */
  lemma {:induction false} AdsRun(w: World, steps: seq<Step>) returns (own: seq<AdLedger.Step>)
    ensures AdLedger.Run(AdsOf(w), own) == AdsOf(Run(w, steps))
    ensures SaneCharges(steps) ==> forall i :: 0 <= i < |own| ==> AdLedger.SaneCharge(own[i])
    decreases |steps|
  {
    own := [];
    if steps != [] {
      var first := AdsFollow(w, steps[0]);
      var rest := AdsRun(Next(w, steps[0]), steps[1..]);
      AdLedger.RunAppend(AdsOf(w), first, rest);
      own := first + rest;
    }
  }

  /**
   * On the whole platform two credits never share a challenge, as long as verifiers take
   * turns on it and every commit is acknowledged.
   */
  lemma ChallengeBacksOneCredit(steps: seq<Step>, r1: nat, r2: nat)
    requires VerifiersTakeTurns(INIT, steps)
    requires var w := Run(INIT, steps);
      && EarnClaimTokens.ShareChallenge(w.requests, r1, r2)
      && EarnClaim.TraceOf(EarnOf(w), w.requests[r1].challengeId).unacked == 0
    ensures r1 == r2
  {
    var own := EarningRuns(INIT, steps);
    EarnClaimTokens.ChallengeBacksOneCredit(own, r1, r2);
  }
}
