/** Campaigns on the shared users and ledger: the funding, and at most one refund each. */
module AdLedger {
  import opened Common
  import opened Books
  import opened AdBudget
  import Commission
  import Arith

  datatype Db = Db(campaigns: map<nat, Campaign>, books: Book)

  // ----- Transactions -----

  /** AdvertiseController::store: the balance check uses what the request had read before. */
  function FundTx(
    db: Db, id: nat, owner: nat, seen: int, reward: nat, views: nat, rates: Commission.Rates, autoApprove: bool): Db
  {
    var cost := Commission.CostPerView(reward, rates) * views;
    if id in db.campaigns || seen < cost then db
    else
      match Post(db.books, owner, -cost, AdFunding, AdRef(id))
      case None => db
      case Some(charged) => Db(db.campaigns[id := Fresh(owner, reward, views, rates, autoApprove)], charged)
  }

  /** PtcAdResource's reject action: the new database, and whether it settled. */
  function RejectTx(db: Db, id: nat): (Db, bool) {
    if id !in db.campaigns || !Rejectable(db.campaigns[id]) then (db, false)
    else
      var c := db.campaigns[id];
      var closed := db.campaigns[id := Reject(c)];
      if RefundOf(c) <= 0 then (Db(closed, db.books), true)
      else
        match Post(db.books, c.owner, RefundOf(c), AdRefund, AdRef(id))
        case None => (db, false)  // the insert threw: rolled back
        case Some(refunded) => (Db(closed, refunded), true)
  }

  /** Approving, pausing, starting and crediting touch the campaign only. */
  function ChangeTx(db: Db, id: nat, step: AdBudget.Step): Db {
    if id !in db.campaigns || step.RejectStep? then db
    else db.(campaigns := db.campaigns[id := AdBudget.Next(db.campaigns[id], step)])
  }

  // ----- Interleaving -----

  datatype Step =
    | Register(user: nat, referrer: Option<nat>)
    | Fund(id: nat, owner: nat, seen: int, reward: nat, views: nat, rates: Commission.Rates, autoApprove: bool)
    | Change(id: nat, step: AdBudget.Step)
    | RejectAd(id: nat)
    | PostElsewhere(payee: nat, delta: int, reason: Reason, ref: Ref)  // a ledger row of earning or payouts
    | PayoutElsewhere(payee: nat, amount: int)                         // a payout settled

  const INIT := Db(map[], BLANK)

  function Next(db: Db, step: Step): Db {
    match step
    case Register(u, referrer) => db.(books := Enroll(db.books, u, referrer))
    case Fund(id, owner, seen, reward, views, rates, autoApprove) =>
      FundTx(db, id, owner, seen, reward, views, rates, autoApprove)
    case Change(id, s) => ChangeTx(db, id, s)
    case RejectAd(id) => RejectTx(db, id).0
    case PostElsewhere(u, delta, reason, ref) =>
      if AreaOf(reason) == Ads || AreaOfRef(ref) == Ads then db
      else db.(books := PostOrKeep(db.books, u, delta, reason, ref))
    case PayoutElsewhere(u, amount) => db.(books := CountPayout(db.books, u, amount))
  }

  function Run(db: Db, steps: seq<Step>): Db
    decreases |steps|
  {
    if steps == [] then db else Run(Next(db, steps[0]), steps[1..])
  }

  lemma {:induction false} RunAppend(db: Db, a: seq<Step>, b: seq<Step>)
    ensures Run(db, a + b) == Run(Run(db, a), b)
    decreases |a|
  {
    if a == [] {
      assert a + b == b;
    } else {
      assert (a + b)[1..] == a[1..] + b;
      RunAppend(Next(db, a[0]), a[1..], b);
    }
  }

  lemma RunOne(db: Db, step: Step)
    ensures Run(db, [step]) == Next(db, step)
  {
    assert Run(Next(db, step), [step][1..]) == Next(db, step);
  }

  // ----- The ledger of one campaign -----

  function EntriesFor(ledger: seq<LedgerRow>, id: nat): seq<LedgerRow> {
    if ledger == [] then []
    else
      var last := ledger[|ledger| - 1];
      EntriesFor(ledger[..|ledger| - 1], id) + (if last.ref == AdRef(id) then [last] else [])
  }

  lemma EntriesAppend(ledger: seq<LedgerRow>, row: LedgerRow, id: nat)
    ensures EntriesFor(ledger + [row], id) == EntriesFor(ledger, id) + (if row.ref == AdRef(id) then [row] else [])
  {
    assert (ledger + [row])[..|ledger|] == ledger;
  }

  /** The UNIQUE index sees a campaign only through its own rows. */
  lemma {:induction false} IndexSeesEntries(ledger: seq<LedgerRow>, reason: Reason, id: nat)
    ensures IndexFree(ledger, reason, AdRef(id))
      <==> forall row :: row in EntriesFor(ledger, id) ==> row.reason != reason
  {
    if ledger != [] {
      var front, last := ledger[..|ledger| - 1], ledger[|ledger| - 1];
      IndexSeesEntries(front, reason, id);
      assert ledger == front + [last];
      IndexAppend(front, last, reason, AdRef(id));
    }
  }

  /** The funding, then the refund if there was one. */
  function JournalRows(owner: nat, funded: int, refunded: int, id: nat): seq<LedgerRow> {
    [LedgerRow(owner, -funded, AdFunding, AdRef(id))]
    + (if refunded > 0 then [LedgerRow(owner, refunded, AdRefund, AdRef(id))] else [])
  }

  /** All a campaign ever writes to the ledger, read off its counters. */
  function Journal(campaigns: map<nat, Campaign>, id: nat): seq<LedgerRow> {
    if id !in campaigns then []
    else
      var c := campaigns[id];
      JournalRows(c.owner, Funded(c), Refunded(c), id)
  }

  lemma JournalRefund(owner: nat, funded: int, before: int, refund: int, id: nat)
    requires refund > 0 ==> before == 0
    ensures JournalRows(owner, funded, before + Max(0, refund), id)
      == JournalRows(owner, funded, before, id)
        + (if refund > 0 then [LedgerRow(owner, refund, AdRefund, AdRef(id))] else [])
  {
  }

  ghost predicate CampaignsSane(db: Db) {
    forall id :: id in db.campaigns ==> Accounts(db.campaigns[id]) && db.campaigns[id].owner in db.books.users
  }

  ghost predicate Journaled(db: Db) {
    forall id: nat :: EntriesFor(db.books.ledger, id) == Journal(db.campaigns, id)
  }

  ghost predicate AdInv(db: Db) {
    CampaignsSane(db) && Journaled(db)
  }

  /** A campaign is not charged less than nothing. */
  predicate SaneCharge(step: Step) {
    step.Fund? ==> Commission.CostPerView(step.reward, step.rates) >= 0
  }

  lemma FundKeepsInv(db: Db, step: Step)
    requires AdInv(db) && step.Fund? && SaneCharge(step)
    ensures AdInv(Next(db, step))
  {
    var db' := Next(db, step);
    if db' != db {
      FreshAccounts(step.owner, step.reward, step.views, step.rates, step.autoApprove);
      JournalAfterFund(db, db', step.id);
    }
  }

  lemma JournalAfterFund(db: Db, db': Db, id: nat)
    requires Journaled(db) && id !in db.campaigns && id in db'.campaigns
    requires db'.campaigns == db.campaigns[id := db'.campaigns[id]] && db'.campaigns[id].returned == 0
    requires db'.books.ledger
      == db.books.ledger + [LedgerRow(db'.campaigns[id].owner, -Funded(db'.campaigns[id]), AdFunding, AdRef(id))]
    ensures Journaled(db')
  {
    var c := db'.campaigns[id];
    assert Refunded(c) == 0;
    forall i: nat ensures EntriesFor(db'.books.ledger, i) == Journal(db'.campaigns, i) {
      EntriesAppend(db.books.ledger, LedgerRow(c.owner, -Funded(c), AdFunding, AdRef(id)), i);
      assert EntriesFor(db.books.ledger, i) == Journal(db.campaigns, i);
    }
  }

  /** Only a rejection returns views. */
  lemma ChangeReturnsNothing(c: Campaign, step: AdBudget.Step)
    requires !step.RejectStep?
    ensures AdBudget.Next(c, step).returned == c.returned
  {
  }

  lemma ChangeKeepsInv(db: Db, id: nat, step: AdBudget.Step)
    requires AdInv(db)
    ensures AdInv(ChangeTx(db, id, step))
  {
    var db' := ChangeTx(db, id, step);
    if db' != db {
      StepKeepsAccounts(db.campaigns[id], step);
      ChangeReturnsNothing(db.campaigns[id], step);
      forall i: nat ensures EntriesFor(db'.books.ledger, i) == Journal(db'.campaigns, i) {
        assert EntriesFor(db.books.ledger, i) == Journal(db.campaigns, i);
      }
    }
  }

  /** What a rejection gives back has not been given back before. */
  lemma RejectReturns(c: Campaign)
    requires Accounts(c) && Rejectable(c)
    ensures Refunded(Reject(c)) == Refunded(c) + Max(0, RefundOf(c))
    ensures RefundOf(c) > 0 ==> Refunded(c) == 0
  {
    if c.ad.viewsRemaining > 0 {
      assert c.returned == 0;
      assert RefundOf(c) == c.ad.costPerView * c.ad.viewsRemaining >= 0;
    } else {
      assert RefundOf(c) <= 0;
    }
  }

  /** A rejection from a consistent database always commits when its status guard matches. */
  lemma RejectCommits(db: Db, id: nat)
    requires AdInv(db)
    ensures RejectTx(db, id).1 <==> id in db.campaigns && Rejectable(db.campaigns[id])
  {
    if id in db.campaigns && Rejectable(db.campaigns[id]) {
      RejectReturns(db.campaigns[id]);
      IndexSeesEntries(db.books.ledger, AdRefund, id);
      assert EntriesFor(db.books.ledger, id) == Journal(db.campaigns, id);
    }
  }

  lemma RejectKeepsInv(db: Db, id: nat)
    requires AdInv(db)
    ensures AdInv(RejectTx(db, id).0)
  {
    if RejectTx(db, id).1 {
      RejectReturns(db.campaigns[id]);
      StepKeepsAccounts(db.campaigns[id], RejectStep);
      JournalAfterReject(db, RejectTx(db, id).0, id);
    }
  }

  lemma JournalAfterReject(db: Db, db': Db, id: nat)
    requires Journaled(db) && id in db.campaigns
    requires var c := db.campaigns[id];
      && db'.campaigns == db.campaigns[id := Reject(c)]
      && Refunded(Reject(c)) == Refunded(c) + Max(0, RefundOf(c)) && Reject(c).owner == c.owner
      && Funded(Reject(c)) == Funded(c) && (RefundOf(c) > 0 ==> Refunded(c) == 0)
      && db'.books.ledger == db.books.ledger
           + (if RefundOf(c) > 0 then [LedgerRow(c.owner, RefundOf(c), AdRefund, AdRef(id))] else [])
    ensures Journaled(db')
  {
    var c := db.campaigns[id];
    JournalRefund(c.owner, Funded(c), Refunded(c), RefundOf(c), id);
    assert Journal(db'.campaigns, id) == JournalRows(c.owner, Funded(c), Refunded(c) + Max(0, RefundOf(c)), id);
    if RefundOf(c) <= 0 { assert db'.books.ledger == db.books.ledger; }
    forall i: nat ensures EntriesFor(db'.books.ledger, i) == Journal(db'.campaigns, i) {
      EntriesAppend(db.books.ledger, LedgerRow(c.owner, RefundOf(c), AdRefund, AdRef(id)), i);
      assert EntriesFor(db.books.ledger, i) == Journal(db.campaigns, i);
    }
  }

  lemma ElsewhereKeepsInv(db: Db, user: nat, delta: int, reason: Reason, ref: Ref)
    requires AdInv(db) && AreaOfRef(ref) != Ads
    ensures AdInv(db.(books := PostOrKeep(db.books, user, delta, reason, ref)))
  {
    var db' := db.(books := PostOrKeep(db.books, user, delta, reason, ref));
    forall i: nat ensures EntriesFor(db'.books.ledger, i) == Journal(db'.campaigns, i) {
      EntriesAppend(db.books.ledger, LedgerRow(user, delta, reason, ref), i);
      assert EntriesFor(db.books.ledger, i) == Journal(db.campaigns, i);
    }
  }

  lemma UsersKeepInv(db: Db, books: Book)
    requires AdInv(db) && books.ledger == db.books.ledger && db.books.users.Keys <= books.users.Keys
    ensures AdInv(db.(books := books))
  {
    forall i: nat ensures EntriesFor(books.ledger, i) == Journal(db.campaigns, i) {
      assert EntriesFor(db.books.ledger, i) == Journal(db.campaigns, i);
    }
  }

  lemma StepKeepsAds(db: Db, step: Step)
    requires AdInv(db) && SaneCharge(step)
    ensures AdInv(Next(db, step))
  {
    match step
    case Register(u, referrer) => UsersKeepInv(db, Enroll(db.books, u, referrer));
    case Fund(_, _, _, _, _, _, _) => FundKeepsInv(db, step);
    case Change(id, s) => ChangeKeepsInv(db, id, s);
    case RejectAd(id) => RejectKeepsInv(db, id);
    case PostElsewhere(u, delta, reason, ref) =>
      if AreaOfRef(ref) != Ads { ElsewhereKeepsInv(db, u, delta, reason, ref); }
    case PayoutElsewhere(u, amount) => UsersKeepInv(db, CountPayout(db.books, u, amount));
  }

  lemma {:induction false} RunKeepsAds(db: Db, steps: seq<Step>)
    requires AdInv(db) && forall i :: 0 <= i < |steps| ==> SaneCharge(steps[i])
    ensures AdInv(Run(db, steps))
    decreases |steps|
  {
    if steps != [] {
      StepKeepsAds(db, steps[0]);
      RunKeepsAds(Next(db, steps[0]), steps[1..]);
    }
  }

  // ----- What a run guarantees -----

  /**
   * The ledger rows of a campaign are its funding and at most one refund, of exactly the views
   * returned; the views credited, returned and left are the views bought and the overdrawn ones.
   */
  lemma RefundedAtMostOnce(steps: seq<Step>, id: nat)
    requires forall i :: 0 <= i < |steps| ==> SaneCharge(steps[i])
    ensures
      var db := Run(INIT, steps);
      && EntriesFor(db.books.ledger, id) == Journal(db.campaigns, id)
      && (id in db.campaigns ==>
            var c := db.campaigns[id];
            && c.credited + c.returned + Max(0, c.ad.viewsRemaining) == c.ad.purchased + c.overdrawn
            && c.returned <= c.ad.purchased)
  {
    RunKeepsAds(INIT, steps);
    var db := Run(INIT, steps);
    assert EntriesFor(db.books.ledger, id) == Journal(db.campaigns, id);
  }

  /** One ledger row, and the balance moved with it. */
  ghost predicate Posts(db: Db, db': Db, user: nat, delta: int, reason: Reason, id: nat) {
    && user in db.books.users && user in db'.books.users
    && db'.books.ledger == db.books.ledger + [LedgerRow(user, delta, reason, AdRef(id))]
    && db'.books.users[user].balance == db.books.users[user].balance + delta
    && (forall u :: u in db.books.users && u != user ==>
          u in db'.books.users && db'.books.users[u] == db.books.users[u])
  }

  /**
   * A rejection closes a pending or approved campaign, takes its views back and refunds what
   * they cost; any other campaign it leaves alone.
   */
  lemma RejectDecides(db: Db, id: nat)
    requires AdInv(db) && id in db.campaigns
    ensures
      var c := db.campaigns[id];
      var (db', settled) := RejectTx(db, id);
      var left := if c.ad.viewsRemaining > 0 then c.ad.viewsRemaining else 0;
      if c.ad.status in {PendingReview, Approved} then
        && settled && id in db'.campaigns && db'.campaigns == db.campaigns[id := db'.campaigns[id]]
        && var c' := db'.campaigns[id];
        && c'.ad == c.ad.(status := Rejected, active := false, viewsRemaining := 0)
        && c' == c.(ad := c'.ad, returned := c.returned + left)
        && (if left * c.ad.costPerView > 0 then Posts(db, db', c.owner, left * c.ad.costPerView, AdRefund, id)
            else db'.books == db.books)
      else !settled && db' == db
  {
    RejectCommits(db, id);
    var c := db.campaigns[id];
    if c.ad.viewsRemaining <= 0 { Arith.MulMono(c.ad.viewsRemaining, 0, c.ad.costPerView); }
  }

  /**
   * A submission is charged its price for all its views, and waits for review unless it is
   * approved at once; it is refused exactly when the balance read is too low. When the
   * balance is still what was read, none becomes negative.
   */
  lemma SubmitDecides(
    db: Db, id: nat, owner: nat, seen: int, reward: nat, views: nat, rates: Commission.Rates, autoApprove: bool)
    requires AdInv(db) && id !in db.campaigns && owner in db.books.users
    ensures
      var price := Commission.CostPerView(reward, rates);
      var db' := FundTx(db, id, owner, seen, reward, views, rates, autoApprove);
      if seen < price * views then db' == db
      else
        && id in db'.campaigns && db'.campaigns == db.campaigns[id := db'.campaigns[id]]
        && var c := db'.campaigns[id];
        && c.owner == owner && c.ad.reward == reward && c.ad.costPerView == price
        && c.ad.purchased == views && c.ad.viewsRemaining == views && c.open == {} && c.paid == 0
        && (if autoApprove then c.ad.status == Approved && c.ad.active
            else c.ad.status == PendingReview && !c.ad.active)
        && Posts(db, db', owner, 0 - price * views, AdFunding, id)
        && (seen == db.books.users[owner].balance ==> db'.books.users[owner].balance >= 0)
  {
    IndexSeesEntries(db.books.ledger, AdFunding, id);
    assert EntriesFor(db.books.ledger, id) == Journal(db.campaigns, id);
  }

  // ----- The transactions in place -----

  class Store {
    var campaigns: map<nat, Campaign>
    var users: map<nat, User>
    var ledger: seq<LedgerRow>

    function Contents(): Db
      reads this
    {
      Db(campaigns, Book(users, ledger))
    }

    constructor ()
      ensures Contents() == INIT
    {
      campaigns, users, ledger := map[], map[], [];
    }

    /** AdvertiseController::store, with the balance its request had read. */
    method Submit(id: nat, owner: nat, seen: int, reward: nat, views: nat, rates: Commission.Rates, autoApprove: bool)
      modifies this
      ensures Contents() == FundTx(old(Contents()), id, owner, seen, reward, views, rates, autoApprove)
    {
      var costPerView := Commission.CostPerView(reward, rates);
      var totalCost := costPerView * views;
      if seen < totalCost {
        return;
      }
      if id in campaigns || owner !in users || !IndexFree(ledger, AdFunding, AdRef(id)) {
        return;
      }
      campaigns := campaigns[id := Fresh(owner, reward, views, rates, autoApprove)];
      ledger := ledger + [LedgerRow(owner, -totalCost, AdFunding, AdRef(id))];
      users := users[owner := users[owner].(balance := users[owner].balance - totalCost)];
    }

    /** The reject action on the locked row. */
    method RejectAndRefund(id: nat) returns (settled: bool)
      modifies this
      ensures (Contents(), settled) == RejectTx(old(Contents()), id)
    {
      if id !in campaigns || (campaigns[id].ad.status != PendingReview && campaigns[id].ad.status != Approved) {
        return false;
      }
      var c := campaigns[id];
      var refund := c.ad.viewsRemaining * c.ad.costPerView;
      if refund > 0 {
        if c.owner !in users || !IndexFree(ledger, AdRefund, AdRef(id)) {
          return false;
        }
        ledger := ledger + [LedgerRow(c.owner, refund, AdRefund, AdRef(id))];
        users := users[c.owner := users[c.owner].(balance := users[c.owner].balance + refund)];
      }
      campaigns := campaigns[id := c.(
        ad := c.ad.(status := Rejected, active := false, viewsRemaining := 0),
        returned := c.returned + Max(0, c.ad.viewsRemaining))];
      return true;
    }

    /** The post-credit hook of one view, with the budget its request had read. */
    method UseView(id: nat, view: nat, snapshot: int, referred: bool, rates: Commission.Rates)
      requires id in campaigns && view in campaigns[id].open
      modifies this`campaigns
      ensures Contents() == ChangeTx(old(Contents()), id, CreditStep(view, snapshot, referred, rates))
    {
      var c := campaigns[id];
      var before := c.ad.viewsRemaining;
      c := c.(ad := c.ad.(viewsRemaining := c.ad.viewsRemaining - 1));
      if snapshot - 1 <= 0 {
        c := c.(ad := c.ad.(status := Completed, active := false));
      }
      c := c.(open := c.open - {view}, credited := c.credited + 1,
        paid := c.paid + Payout(c.ad.reward, referred, rates));
      campaigns := campaigns[id := c.(overdrawn := c.overdrawn + if before > 0 then 0 else 1)];
    }
  }
}
