/**
 * What the views of a campaign pay out, read off the ledger, against what its advertiser was
 * charged: the credit of a view and the use of the budget happen in one transaction.
 */
module WorldViews {
  import opened Common
  import opened Books
  import opened World
  import opened WorldAreas
  import EarnClaim
  import EarnClaimLedger
  import Withdrawals
  import AdBudget
  import AdLedger
  import Commission
  import Conservation
  import Arith

  /** The row pays for a view of the campaign: the viewer's reward or the referrer's commission. */
  predicate PaysView(row: LedgerRow, views: map<SessionKey, nat>, id: nat) {
    row.ref.SessionRef? && row.ref.key in views && views[row.ref.key] == id
  }

  /** The sum of all rewards and commissions for views of a campaign. */
  function PaidFor(ledger: seq<LedgerRow>, views: map<SessionKey, nat>, id: nat): int {
    if ledger == [] then 0
    else
      var last := ledger[|ledger| - 1];
      PaidFor(ledger[..|ledger| - 1], views, id) + (if PaysView(last, views, id) then last.delta else 0)
  }

  lemma PaidForAppend(ledger: seq<LedgerRow>, row: LedgerRow, views: map<SessionKey, nat>, id: nat)
    ensures PaidFor(ledger + [row], views, id)
      == PaidFor(ledger, views, id) + (if PaysView(row, views, id) then row.delta else 0)
  {
    assert (ledger + [row])[..|ledger|] == ledger;
  }

  /** Rows of payouts and ads pay for no view. */
  lemma {:induction false} MovesPayNoView(books: Book, moves: seq<Move>, area: Area,
    views: map<SessionKey, nat>, id: nat)
    requires MovesOf(moves, area) && area != Earning
    ensures PaidFor(MovingAll(books, moves).ledger, views, id) == PaidFor(books.ledger, views, id)
    decreases |moves|
  {
    if moves != [] {
      var m := moves[0];
      assert MoveOf(m, area);
      if m.Posting? { PaidForAppend(books.ledger, LedgerRow(m.user, m.delta, m.reason, m.ref), views, id); }
      MovesPayNoView(Moving(books, m), moves[1..], area, views, id);
    }
  }

  /** Linking a session that has no rows changes no sum. */
  lemma {:induction false} LinkPaysNothing(ledger: seq<LedgerRow>, views: map<SessionKey, nat>, key: SessionKey,
    to: nat, id: nat)
    requires forall row :: row in ledger ==> row.ref != SessionRef(key)
    ensures PaidFor(ledger, views[key := to], id) == PaidFor(ledger, views, id)
  {
    if ledger != [] {
      var front, last := ledger[..|ledger| - 1], ledger[|ledger| - 1];
      assert last in ledger && forall row :: row in front ==> row in ledger;
      LinkPaysNothing(front, views, key, to, id);
    }
  }

  /** Nothing was paid for a campaign that has no views. */
  lemma {:induction false} NoViewsNoPay(ledger: seq<LedgerRow>, views: map<SessionKey, nat>, id: nat)
    requires forall key :: key in views ==> views[key] != id
    ensures PaidFor(ledger, views, id) == 0
  {
    if ledger != [] { NoViewsNoPay(ledger[..|ledger| - 1], views, id); }
  }

  // ----- Invariant -----

  ghost predicate Credited(w: World, key: SessionKey) {
    exists r :: CreditedBy(w, r, key)
  }

  predicate CreditedBy(w: World, r: nat, key: SessionKey) {
    r in w.requests && w.requests[r].credited && w.requests[r].key == key
  }

  /** A campaign's session exists, and its view is open until it is credited. */
  ghost predicate ViewSane(w: World, key: SessionKey)
    requires key in w.views
  {
    && key in w.sessions && key.surface == PtcView && w.views[key] in w.campaigns
    && (key.id in w.campaigns[w.views[key]].open || Credited(w, key))
  }

  /** A request for a campaign's session is for the campaign's reward. */
  ghost predicate RequestSane(w: World, r: nat)
    requires r in w.requests
  {
    var q := w.requests[r];
    q.key in w.views && w.views[q.key] in w.campaigns ==> q.reward == w.campaigns[w.views[q.key]].ad.reward
  }

  /** What the campaign counts as paid is what the ledger says. */
  ghost predicate PaidSane(w: World, id: nat)
    requires id in w.campaigns
  {
    w.campaigns[id].paid == PaidFor(w.books.ledger, w.views, id)
  }

  ghost predicate ViewInv(w: World) {
    && EarnClaimLedger.LedgerInv(EarnOf(w))
    && (forall key :: key in w.views ==> ViewSane(w, key))
    && (forall r :: r in w.requests ==> RequestSane(w, r))
    && (forall id :: id in w.campaigns ==> PaidSane(w, id))
  }

  // ----- Steps that leave views alone -----

  /** The campaigns keep their open views, their rewards and what they paid. */
  predicate SameViews(before: map<nat, AdBudget.Campaign>, after: map<nat, AdBudget.Campaign>) {
    forall id :: id in before ==>
      && id in after && after[id].open == before[id].open && after[id].paid == before[id].paid
      && after[id].ad.reward == before[id].ad.reward
  }

  /** Credits stay, requests keep their identity, and new requests are sane. */
  ghost predicate RequestsContinue(w: World, w': World) {
    && (forall r :: r in w.requests ==> EarnClaimLedger.RequestAdvances(w.requests[r], w'.requests, r))
    && (forall r :: r in w'.requests && r !in w.requests ==> RequestSane(w', r))
  }

  lemma ViewsCarry(w: World, w': World)
    requires ViewInv(w) && w'.views == w.views && SameViews(w.campaigns, w'.campaigns)
    requires w.sessions.Keys <= w'.sessions.Keys && RequestsContinue(w, w')
    ensures forall key :: key in w'.views ==> ViewSane(w', key)
    ensures forall r :: r in w'.requests ==> RequestSane(w', r)
  {
    forall key | key in w'.views ensures ViewSane(w', key) {
      assert ViewSane(w, key);
      if Credited(w, key) {
        var r :| CreditedBy(w, r, key);
        assert EarnClaimLedger.RequestAdvances(w.requests[r], w'.requests, r);
        assert CreditedBy(w', r, key);
      }
    }
    forall r | r in w'.requests ensures RequestSane(w', r) {
      if r in w.requests {
        assert RequestSane(w, r) && EarnClaimLedger.RequestAdvances(w.requests[r], w'.requests, r);
        if w.requests[r].key in w.views { assert ViewSane(w, w.requests[r].key); }
      }
    }
  }

  /** Everything of earning but the books is untouched. */
  predicate SameEarning(w: World, w': World) {
    w'.sessions == w.sessions && w'.requests == w.requests && w'.views == w.views
  }

  lemma OthersKeepViews(w: World, w': World, moves: seq<Move>, area: Area)
    requires ViewInv(w) && EarnClaimLedger.LedgerInv(EarnOf(w')) && SameEarning(w, w')
    requires MovesOf(moves, area) && area != Earning && MovingAll(w.books, moves) == w'.books
    requires SameViews(w.campaigns, w'.campaigns)
    requires forall id :: id in w'.campaigns && id !in w.campaigns ==> w'.campaigns[id].paid == 0
    ensures ViewInv(w')
  {
    ViewsCarry(w, w');
    forall id | id in w'.campaigns ensures PaidSane(w', id) {
      MovesPayNoView(w.books, moves, area, w.views, id);
      if id in w.campaigns {
        assert PaidSane(w, id);
      } else {
        forall key | key in w.views ensures w.views[key] != id { assert ViewSane(w, key); }
        NoViewsNoPay(w.books.ledger, w.views, id);
      }
    }
  }

  lemma CampaignStepMoves(w: World, s: AdLedger.Step)
    requires MayAdvertise(s)
    ensures var after := AdLedger.Next(AdsOf(w), s).campaigns;
      SameViews(w.campaigns, after) && forall id :: id in after && id !in w.campaigns ==> after[id].paid == 0
  {
  }

  // ----- Steps of earning -----

  /** Rows for a session pay for its campaign, if it has one. */
  lemma RowsPay(ledger: seq<LedgerRow>, rows: seq<LedgerRow>, key: SessionKey, views: map<SessionKey, nat>, id: nat)
    requires |rows| <= 2 && forall row :: row in rows ==> row.ref == SessionRef(key)
    ensures PaidFor(ledger + rows, views, id) == PaidFor(ledger, views, id)
      + (if key in views && views[key] == id then Total(rows) else 0)
  {
    if |rows| == 1 {
      assert rows == [rows[0]] && rows[0] in rows && rows[1..] == [];
      PaidForAppend(ledger, rows[0], views, id);
    } else if |rows| == 2 {
      assert ledger + rows == ledger + [rows[0]] + [rows[1]];
      assert rows[0] in rows && rows[1] in rows;
      assert Total(rows[1..]) == rows[1].delta + Total(rows[1..][1..]);
      PaidForAppend(ledger, rows[0], views, id);
      PaidForAppend(ledger + [rows[0]], rows[1], views, id);
    } else {
      assert ledger + rows == ledger;
    }
  }

  function Total(rows: seq<LedgerRow>): int {
    if rows == [] then 0 else rows[0].delta + Total(rows[1..])
  }

  /** A committed credit pays the reward and, to a referred viewer's referrer, the commission. */
  lemma CreditRowsTotal(db: EarnClaim.Db, key: SessionKey, user: nat, reward: nat, rates: Commission.Rates)
    requires user in db.books.users
    ensures
      var rows := EarnClaimLedger.CreditRows(db, key, user, reward, rates);
      && |rows| <= 2 && (forall row :: row in rows ==> row.ref == SessionRef(key))
      && Total(rows) == AdBudget.Payout(reward, db.books.users[user].referrer.Some?, rates)
  {
    var rows := EarnClaimLedger.CreditRows(db, key, user, reward, rates);
    assert Total(rows[1..]) == if |rows| == 2 then rows[1].delta + Total(rows[1..][1..]) else 0;
  }

  lemma CreditRowsRefer(db: EarnClaim.Db, key: SessionKey, user: nat, reward: int, rates: Commission.Rates)
    requires user in db.books.users
    ensures
      var rows := EarnClaimLedger.CreditRows(db, key, user, reward, rates);
      |rows| <= 2 && (forall row :: row in rows ==> row.ref == SessionRef(key))
  {
  }

  /** A step of earning outside campaigns pays for no view. */
  lemma EarnPaysNoView(w: World, s: EarnClaim.Step, id: nat)
    requires MayEarn(w, s)
    ensures PaidFor(EarnClaim.Next(EarnOf(w), s).db.books.ledger, w.views, id) == PaidFor(w.books.ledger, w.views, id)
  {
    var sys := EarnOf(w);
    if EarnClaimLedger.Commits(sys, s) {
      var q := sys.requests[s.request];
      EarnClaimLedger.CommitMoves(sys, s);
      EarnClaimLedger.CommittedCredit(sys.db, q.key, q.user, q.reward, s.rates, s.fault.Fails?);
      CreditRowsRefer(sys.db, q.key, q.user, q.reward, s.rates);
      RowsPay(w.books.ledger, EarnClaimLedger.CreditRows(sys.db, q.key, q.user, q.reward, s.rates), q.key, w.views, id);
    } else {
      EarnClaimLedger.OtherStepsEarnNothing(sys, s);
      OnlyElsewherePays(w.books.ledger, EarnClaim.Next(sys, s).db.books.ledger, w.views, id);
    }
  }

  lemma OnlyElsewherePays(ledger: seq<LedgerRow>, ledger': seq<LedgerRow>, views: map<SessionKey, nat>, id: nat)
    requires EarnClaimLedger.OnlyElsewhere(ledger, ledger')
    ensures PaidFor(ledger', views, id) == PaidFor(ledger, views, id)
  {
    if ledger' != ledger {
      var row :| EarnClaimLedger.AddsElsewhere(ledger, ledger', row);
      PaidForAppend(ledger, row, views, id);
    }
  }

  /** A request that arrives for a campaign's session carries its reward. */
  lemma ArrivalsAreSane(w: World, s: EarnClaim.Step, r: nat)
    requires MayEarn(w, s) && r !in w.requests && r in EarnClaim.Next(EarnOf(w), s).requests
    ensures var q := EarnClaim.Next(EarnOf(w), s).requests[r];
      q.key in w.views ==> w.views[q.key] in w.campaigns && q.reward == w.campaigns[w.views[q.key]].ad.reward
  {
  }

  lemma EarnKeepsViews(w: World, s: EarnClaim.Step)
    requires ViewInv(w) && MayEarn(w, s)
    ensures ViewInv(WithEarn(w, EarnClaim.Next(EarnOf(w), s)))
  {
    var sys := EarnOf(w);
    var w' := WithEarn(w, EarnClaim.Next(sys, s));
    WithEarnChangesEarning(w, EarnClaim.Next(sys, s));
    EarnClaimLedger.StepKeepsLedger(sys, s);
    EarnClaimLedger.StepAdvancesSessions(sys, s);
    EarnClaimLedger.StepAdvancesRequests(sys, s);
    forall r | r in w'.requests && r !in w.requests ensures RequestSane(w', r) { ArrivalsAreSane(w, s, r); }
    ViewsCarry(w, w');
    forall id | id in w'.campaigns ensures PaidSane(w', id) {
      assert PaidSane(w, id);
      EarnPaysNoView(w, s, id);
    }
  }

  lemma OpenKeepsViews(w: World, id: nat, view: nat, viewer: nat, token: string)
    requires ViewInv(w)
    ensures ViewInv(OpenTx(w, id, view, viewer, token))
  {
    if MayOpen(w, id, view, viewer) {
      var sys := EarnOf(w);
      var start := EarnClaim.StartSession(Key(view), viewer, token);
      var w' := OpenTx(w, id, view, viewer, token);
      EarnClaimLedger.StepKeepsLedger(sys, start);
      assert EarnOf(w') == EarnClaim.Next(sys, start);
      assert w'.requests == w.requests && w'.books == w.books;
      OpenedViews(w, w', id, view);
    }
  }

  lemma OpenedViews(w: World, w': World, id: nat, view: nat)
    requires ViewInv(w) && EarnClaimLedger.LedgerInv(EarnOf(w'))
    requires id in w.campaigns && AdBudget.Servable(w.campaigns[id]) && Key(view) !in w.sessions
    requires w'.requests == w.requests && w'.books == w.books
    requires Key(view) in w'.sessions && w.sessions.Keys <= w'.sessions.Keys
    requires w'.campaigns == w.campaigns[id := AdBudget.StartView(w.campaigns[id], view)]
    requires w'.views == w.views[Key(view) := id]
    ensures ViewInv(w')
  {
    forall key | key in w'.views ensures ViewSane(w', key) {
      if key != Key(view) {
        assert ViewSane(w, key);
        if Credited(w, key) { var r :| CreditedBy(w, r, key); assert CreditedBy(w', r, key); }
      }
    }
    forall r | r in w'.requests ensures RequestSane(w', r) {
      assert RequestSane(w, r);
      assert EarnClaimLedger.RequestOwnsSession(EarnOf(w), r);
      if w.requests[r].key in w.views { assert ViewSane(w, w.requests[r].key); }
    }
    forall row | row in w.books.ledger ensures row.ref != SessionRef(Key(view)) {
      assert EarnClaimLedger.RowSettled(EarnOf(w).db, row);
    }
    forall i | i in w'.campaigns ensures PaidSane(w', i) {
      assert PaidSane(w, i);
      LinkPaysNothing(w.books.ledger, w.views, Key(view), id, i);
    }
  }

  // ----- The credit of a view -----

  /** A request that is about to credit a pending session's view finds the view open. */
  lemma PendingViewIsOpen(w: World, key: SessionKey)
    requires ViewInv(w) && key in w.views && w.sessions[key].status == EarnClaim.Pending
    ensures key.id in w.campaigns[w.views[key]].open
  {
    assert ViewSane(w, key);
    EarnClaimLedger.PendingMeansUnpaid(EarnOf(w), key);
  }

  /** The campaign after the credit: one view less is open, and the payout is counted. */
  lemma CreditedCampaign(c: AdBudget.Campaign, step: AdBudget.Step)
    requires step.CreditStep? && step.view in c.open
    ensures
      var c' := AdBudget.Next(c, step);
      && c'.open == c.open - {step.view} && c'.ad.reward == c.ad.reward
      && c'.paid == c.paid + AdBudget.Payout(c.ad.reward, step.referred, step.rates)
  {
  }

  lemma CompleteKeepsViews(w: World, r: nat, fault: EarnClaim.Fault, rates: Commission.Rates, snapshot: int)
    requires ViewInv(w)
    ensures ViewInv(CompleteTx(w, r, fault, rates, snapshot))
  {
    if MayComplete(w, r) {
      var sys, credit := EarnOf(w), EarnClaim.Credit(r, fault, rates);
      WithEarnChangesEarning(w, EarnClaim.Next(sys, credit));
      EarnClaimLedger.StepKeepsLedger(sys, credit);
      EarnClaimLedger.StepAdvancesSessions(sys, credit);
      EarnClaimLedger.StepAdvancesRequests(sys, credit);
      if Commits(w, r, fault, rates) {
        CommitKeepsViews(w, r, fault, rates, snapshot);
      } else {
        FailKeepsViews(w, r, fault, rates);
      }
    }
  }

  lemma FailKeepsViews(w: World, r: nat, fault: EarnClaim.Fault, rates: Commission.Rates)
    requires ViewInv(w) && MayComplete(w, r) && !Commits(w, r, fault, rates)
    ensures ViewInv(WithEarn(w, EarnClaim.Next(EarnOf(w), EarnClaim.Credit(r, fault, rates))))
  {
    var sys, credit := EarnOf(w), EarnClaim.Credit(r, fault, rates);
    var w' := WithEarn(w, EarnClaim.Next(sys, credit));
    WithEarnChangesEarning(w, EarnClaim.Next(sys, credit));
    EarnClaimLedger.StepKeepsLedger(sys, credit);
    FailMoves(w, r, fault, rates);
    QuietKeepsViews(w, w');
  }

  /** No row is written, and requests only move on. */
  lemma QuietKeepsViews(w: World, w': World)
    requires ViewInv(w) && EarnClaimLedger.LedgerInv(EarnOf(w')) && RequestsContinue(w, w')
    requires w'.books.ledger == w.books.ledger && w'.sessions == w.sessions && w'.views == w.views
      && w'.campaigns == w.campaigns
    ensures ViewInv(w')
  {
    ViewsCarry(w, w');
    forall id | id in w'.campaigns ensures PaidSane(w', id) { assert PaidSane(w, id); }
  }

  /** A credit that does not commit changes nothing but where its request stands. */
  lemma FailMoves(w: World, r: nat, fault: EarnClaim.Fault, rates: Commission.Rates)
    requires MayComplete(w, r) && !Commits(w, r, fault, rates)
    ensures
      var w' := WithEarn(w, EarnClaim.Next(EarnOf(w), EarnClaim.Credit(r, fault, rates)));
      && w'.books == w.books && w'.sessions == w.sessions && w'.views == w.views && w'.campaigns == w.campaigns
      && w'.requests == w.requests[r := w.requests[r].(pc := EarnClaim.AtUnconsume)]
  {
  }

  /** What a committed credit of a view changes. */
  lemma CommitMovesViews(w: World, r: nat, fault: EarnClaim.Fault, rates: Commission.Rates, snapshot: int)
    requires ViewInv(w) && MayComplete(w, r) && Commits(w, r, fault, rates)
    ensures
      var w' := CompleteTx(w, r, fault, rates, snapshot);
      var q, id := w.requests[r], w.views[w.requests[r].key];
      && EarnOf(w') == EarnClaim.Next(EarnOf(w), EarnClaim.Credit(r, fault, rates))
      && q.user in w.books.users && w'.views == w.views && w.sessions.Keys <= w'.sessions.Keys
      && q.key.id in w.campaigns[id].open
      && w'.campaigns == w.campaigns[id := AdBudget.Next(w.campaigns[id], HookStep(w, r, rates, snapshot))]
      && r in w'.requests && w'.requests == w.requests[r := w'.requests[r]]
      && w'.requests[r].credited && w'.requests[r].key == q.key && w'.requests[r].reward == q.reward
      && w'.books.ledger == w.books.ledger + EarnClaimLedger.CreditRows(EarnOf(w).db, q.key, q.user, q.reward, rates)
  {
    var sys, credit, q := EarnOf(w), EarnClaim.Credit(r, fault, rates), w.requests[r];
    WithEarnChangesEarning(w, EarnClaim.Next(sys, credit));
    EarnClaimLedger.CommitMoves(sys, credit);
    EarnClaimLedger.CommittedCredit(sys.db, q.key, q.user, q.reward, rates, fault.Fails?);
    PendingViewIsOpen(w, q.key);
  }

  lemma CommitKeepsViews(w: World, r: nat, fault: EarnClaim.Fault, rates: Commission.Rates, snapshot: int)
    requires ViewInv(w) && MayComplete(w, r) && Commits(w, r, fault, rates)
    ensures ViewInv(CompleteTx(w, r, fault, rates, snapshot))
  {
    var w' := CompleteTx(w, r, fault, rates, snapshot);
    CommitMovesViews(w, r, fault, rates, snapshot);
    EarnClaimLedger.StepKeepsLedger(EarnOf(w), EarnClaim.Credit(r, fault, rates));
    var q, id := w.requests[r], w.views[w.requests[r].key];
    CreditedCampaign(w.campaigns[id], HookStep(w, r, rates, snapshot));
    CreditedViews(w, w', r, id);
    assert RequestSane(w, r);
    CreditRowsTotal(EarnOf(w).db, q.key, q.user, q.reward, rates);
    CreditedPays(w, w', q.key, id, EarnClaimLedger.CreditRows(EarnOf(w).db, q.key, q.user, q.reward, rates));
  }

  /** The rows of a credited view are what its campaign counts as paid. */
  lemma CreditedPays(w: World, w': World, key: SessionKey, id: nat, rows: seq<LedgerRow>)
    requires forall i :: i in w.campaigns ==> PaidSane(w, i)
    requires key in w.views && id == w.views[key] && w'.views == w.views && id in w.campaigns && id in w'.campaigns
    requires |rows| <= 2 && forall row :: row in rows ==> row.ref == SessionRef(key)
    requires w'.books.ledger == w.books.ledger + rows
    requires w'.campaigns == w.campaigns[id := w'.campaigns[id]]
    requires w'.campaigns[id].paid == w.campaigns[id].paid + Total(rows)
    ensures forall i :: i in w'.campaigns ==> PaidSane(w', i)
  {
    forall i | i in w'.campaigns ensures PaidSane(w', i) {
      assert PaidSane(w, i);
      RowsPay(w.books.ledger, rows, key, w.views, i);
    }
  }

  /** The credited view closes; all others stay as they are. */
  lemma CreditedViews(w: World, w': World, r: nat, id: nat)
    requires ViewInv(w) && r in w.requests && r in w'.requests && w.requests[r].key in w.views
      && id == w.views[w.requests[r].key]
    requires id in w.campaigns && id in w'.campaigns && w'.views == w.views && w.sessions.Keys <= w'.sessions.Keys
    requires w'.requests == w.requests[r := w'.requests[r]] && w'.requests[r].credited
    requires w'.requests[r].key == w.requests[r].key && w'.requests[r].reward == w.requests[r].reward
    requires w'.campaigns == w.campaigns[id := w'.campaigns[id]]
    requires w'.campaigns[id].open == w.campaigns[id].open - {w.requests[r].key.id}
    requires w'.campaigns[id].ad.reward == w.campaigns[id].ad.reward
    ensures forall key :: key in w'.views ==> ViewSane(w', key)
    ensures forall r' :: r' in w'.requests ==> RequestSane(w', r')
  {
    var done := w.requests[r].key;
    assert CreditedBy(w', r, done);
    forall key | key in w'.views ensures ViewSane(w', key) {
      assert ViewSane(w, key) && ViewSane(w, done);
      if key != done && Credited(w, key) {
        var r' :| CreditedBy(w, r', key);
        assert CreditedBy(w', r', key);
      }
    }
    forall r' | r' in w'.requests ensures RequestSane(w', r') {
      assert RequestSane(w, r');
    }
  }

  // ----- Every step -----

  lemma StepKeepsViews(w: World, step: Step)
    requires ViewInv(w) && EarnClaimLedger.LedgerInv(EarnOf(Next(w, step)))
    ensures ViewInv(Next(w, step))
  {
    match step
    case Register(u, referrer) =>
      WithEarnChangesEarning(w, EarnClaim.Next(EarnOf(w), EarnClaim.Register(u, referrer)));
      OthersKeepViewsOnRegister(w, u, referrer);
    case Earn(s) => if MayEarn(w, s) { EarnKeepsViews(w, s); }
    case Payout(s) =>
      if MayPay(s) {
        var moves := PayoutMoves(PayoutsOf(w), s);
        OthersKeepViews(w, Next(w, step), moves, Payouts);
      }
    case Campaign(s) =>
      if MayAdvertise(s) {
        var moves := AdMoves(AdsOf(w), s);
        CampaignStepMoves(w, s);
        OthersKeepViews(w, Next(w, step), moves, Ads);
      }
    case OpenView(id, view, viewer, token) => OpenKeepsViews(w, id, view, viewer, token);
    case Complete(r, fault, rates, snapshot) => CompleteKeepsViews(w, r, fault, rates, snapshot);
  }

  lemma OthersKeepViewsOnRegister(w: World, u: nat, referrer: Option<nat>)
    requires ViewInv(w)
    ensures ViewInv(Next(w, Register(u, referrer)))
  {
    var sys, register := EarnOf(w), EarnClaim.Register(u, referrer);
    var w' := WithEarn(w, EarnClaim.Next(sys, register));
    WithEarnChangesEarning(w, EarnClaim.Next(sys, register));
    EarnClaimLedger.StepKeepsLedger(sys, register);
    assert SameEarning(w, w') && w'.books.ledger == w.books.ledger && w'.campaigns == w.campaigns;
    QuietKeepsViews(w, w');
  }

  lemma StepKeepsEarning(w: World, step: Step)
    requires EarnClaimLedger.LedgerInv(EarnOf(w))
    ensures EarnClaimLedger.LedgerInv(EarnOf(Next(w, step)))
  {
    var own := EarnFollows(w, step);
    EarnClaimLedger.RunKeepsLedger(EarnOf(w), own);
  }

  lemma {:induction false} RunKeepsViews(w: World, steps: seq<Step>)
    requires ViewInv(w)
    ensures ViewInv(Run(w, steps))
    decreases |steps|
  {
    if steps != [] {
      StepKeepsEarning(w, steps[0]);
      StepKeepsViews(w, steps[0]);
      RunKeepsViews(Next(w, steps[0]), steps[1..]);
    }
  }

  // ----- The life of one campaign -----

  /** The platform's step changes the campaign by this step of its own, at the rates of the credit if it is one. */
  predicate Changes(step: Step, c: AdBudget.Campaign, c': AdBudget.Campaign, s: AdBudget.Step) {
    c' == AdBudget.Next(c, s) && (s.CreditStep? ==> step.Complete? && s.rates == step.rates)
  }

  ghost predicate Evolves(step: Step, c: AdBudget.Campaign, c': AdBudget.Campaign) {
    c' == c || exists s :: Changes(step, c, c', s)
  }

  lemma CampaignStepEvolves(w: World, ad: AdLedger.Step, id: nat)
    requires id in w.campaigns && MayAdvertise(ad)
    ensures var after := Next(w, Campaign(ad)).campaigns;
      id in after && Evolves(Campaign(ad), w.campaigns[id], after[id])
  {
    var step, c, after := Campaign(ad), w.campaigns[id], Next(w, Campaign(ad)).campaigns;
    if ad.Change? && ad.id == id {
      assert Changes(step, c, after[id], ad.step);
    } else if ad.RejectAd? && ad.id == id && after[id] != c {
      assert Changes(step, c, after[id], AdBudget.RejectStep);
    }
  }

  lemma ViewStepEvolves(w: World, step: Step, id: nat)
    requires id in w.campaigns && Earns(step)
    ensures id in Next(w, step).campaigns && Evolves(step, w.campaigns[id], Next(w, step).campaigns[id])
  {
    var c, after := w.campaigns[id], Next(w, step).campaigns;
    match step
    case OpenView(to, view, viewer, token) =>
      if MayOpen(w, to, view, viewer) && to == id { assert Changes(step, c, after[id], AdBudget.StartStep(view)); }
    case Complete(r, fault, rates, snapshot) =>
      if MayComplete(w, r) && Commits(w, r, fault, rates) && w.views[w.requests[r].key] == id {
        assert Changes(step, c, after[id], HookStep(w, r, rates, snapshot));
      }
    case Earn(_) => assert after == w.campaigns;
    case _ =>
  }

  lemma OtherStepsKeepCampaigns(w: World, step: Step)
    requires step.Register? || step.Payout?
    ensures Next(w, step).campaigns == w.campaigns
  {
  }

  /** Every campaign there is stays, and changes by steps of its own. */
  lemma CampaignEvolves(w: World, step: Step, id: nat)
    requires id in w.campaigns
    ensures id in Next(w, step).campaigns && Evolves(step, w.campaigns[id], Next(w, step).campaigns[id])
  {
    if step.Campaign? {
      if MayAdvertise(step.ad) { CampaignStepEvolves(w, step.ad, id); }
    } else if Earns(step) {
      ViewStepEvolves(w, step, id);
    } else {
      OtherStepsKeepCampaigns(w, step);
    }
  }

  /** A campaign begins when it is funded. */
  lemma CampaignBegins(w: World, step: Step, id: nat)
    requires id !in w.campaigns && id in Next(w, step).campaigns
    ensures
      && step.Campaign? && step.ad.Fund?
      && Next(w, step).campaigns[id]
           == AdBudget.Fresh(step.ad.owner, step.ad.reward, step.ad.views, step.ad.rates, step.ad.autoApprove)
  {
  }

  // ----- Within the funding -----

  /**
   * Percentages hold at `cap`: every campaign is charged at least this platform percentage,
   * and no view's commission uses more.
   */
  predicate RatesHold(steps: seq<Step>, cap: nat) {
    && (forall i :: 0 <= i < |steps| && steps[i].Campaign? && steps[i].ad.Fund? ==>
          steps[i].ad.rates.platformPct >= cap)
    && (forall i :: 0 <= i < |steps| && steps[i].Complete? ==> Commission.EffectivePct(steps[i].rates) <= cap)
  }

  /** The price of a view covers what any view pays within the cap; so does the price of all. */
  ghost predicate Covered(c: AdBudget.Campaign, cap: nat) {
    && c.ad.costPerView >= 0 && c.paid <= c.ad.costPerView * c.credited
    && forall rates: Commission.Rates :: Commission.EffectivePct(rates) <= cap ==>
         AdBudget.Payout(c.ad.reward, true, rates) <= c.ad.costPerView
  }

  lemma FreshIsCovered(owner: nat, reward: nat, views: nat, rates: Commission.Rates, autoApprove: bool, cap: nat)
    requires rates.platformPct >= cap
    ensures Covered(AdBudget.Fresh(owner, reward, views, rates, autoApprove), cap)
  {
    Commission.CostCoversPayout(reward, rates);
    forall later: Commission.Rates | Commission.EffectivePct(later) <= cap
      ensures AdBudget.Payout(reward, true, later) <= Commission.CostPerView(reward, rates)
    {
      Commission.CostCoversLaterPayout(reward, rates, later);
    }
  }

  lemma ChangeKeepsCovered(c: AdBudget.Campaign, step: AdBudget.Step, cap: nat)
    requires Covered(c, cap) && (step.CreditStep? ==> Commission.EffectivePct(step.rates) <= cap)
    ensures Covered(AdBudget.Next(c, step), cap)
  {
    Arith.Distribute(c.ad.costPerView, c.credited, 1);
  }

  ghost predicate AllCovered(w: World, cap: nat) {
    forall id :: id in w.campaigns ==> Covered(w.campaigns[id], cap)
  }

  lemma StepKeepsCovered(w: World, step: Step, cap: nat)
    requires AllCovered(w, cap) && RatesHold([step], cap)
    ensures AllCovered(Next(w, step), cap)
  {
    var w' := Next(w, step);
    assert [step][0] == step;
    forall id | id in w'.campaigns ensures Covered(w'.campaigns[id], cap) {
      if id in w.campaigns {
        CampaignEvolves(w, step, id);
        if w'.campaigns[id] != w.campaigns[id] {
          var s :| Changes(step, w.campaigns[id], w'.campaigns[id], s);
          ChangeKeepsCovered(w.campaigns[id], s, cap);
        }
      } else {
        CampaignBegins(w, step, id);
        FreshIsCovered(step.ad.owner, step.ad.reward, step.ad.views, step.ad.rates, step.ad.autoApprove, cap);
      }
    }
  }

  lemma {:induction false} RunKeepsCovered(w: World, steps: seq<Step>, cap: nat)
    requires AllCovered(w, cap) && RatesHold(steps, cap)
    ensures AllCovered(Run(w, steps), cap)
    decreases |steps|
  {
    if steps != [] {
      StepKeepsCovered(w, steps[0], cap);
      RunKeepsCovered(Next(w, steps[0]), steps[1..], cap);
    }
  }

  lemma RatesAreSane(steps: seq<Step>, cap: nat)
    requires RatesHold(steps, cap)
    ensures SaneCharges(steps)
  {
    forall i | 0 <= i < |steps| && steps[i].Campaign? ensures AdLedger.SaneCharge(steps[i].ad) {
      if steps[i].ad.Fund? { Commission.CostCoversPayout(steps[i].ad.reward, steps[i].ad.rates); }
    }
  }

  /**
   * For every run of the platform: the rewards and commissions that the ledger holds for a
   * campaign's views, together with the campaign's refund, exceed what its advertiser was
   * charged by at most the price of the views credited from an empty budget.
   */
  lemma ViewsStayWithinFunding(steps: seq<Step>, cap: nat, id: nat)
    requires RatesHold(steps, cap) && id in Run(INIT, steps).campaigns
    ensures
      var w := Run(INIT, steps);
      var c := w.campaigns[id];
      && AdLedger.EntriesFor(w.books.ledger, id)
        == AdLedger.JournalRows(c.owner, AdBudget.Funded(c), AdBudget.Refunded(c), id)
      && PaidFor(w.books.ledger, w.views, id) == c.paid
      && PaidFor(w.books.ledger, w.views, id) + AdBudget.Refunded(c)
        <= AdBudget.Funded(c) + c.ad.costPerView * c.overdrawn
  {
    var w := Run(INIT, steps);
    RunKeepsViews(INIT, steps);
    RunKeepsCovered(INIT, steps, cap);
    RatesAreSane(steps, cap);
    var own := AdsRun(INIT, steps);
    AdLedger.RunKeepsAds(AdLedger.INIT, own);
    assert AdLedger.EntriesFor(AdsOf(w).books.ledger, id) == AdLedger.Journal(AdsOf(w).campaigns, id);
    assert PaidSane(w, id) && Covered(w.campaigns[id], cap);
    AdBudget.OutflowBound(w.campaigns[id], w.campaigns[id].ad.costPerView);
  }
}
