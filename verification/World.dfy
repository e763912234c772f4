/**
 * The whole platform on one database: earning, payouts and ads interleave on the same users
 * and the same ledger, and a view of a campaign is an earn session whose credit uses the
 * campaign's budget in the same transaction.
 */
module World {
  import opened Common
  import opened Books
  import EarnClaim
  import Withdrawals
  import AdBudget
  import AdLedger
  import Commission

  /** Shared tables first; then what belongs to earning, to payouts and to ads. */
  datatype World = World(
    books: Book,
    sessions: map<SessionKey, EarnClaim.Session>,
    challenges: map<string, EarnClaim.Challenge>,
    lifetime: map<nat, int>,
    requests: map<nat, EarnClaim.Request>,
    verifiers: map<nat, string>,
    traces: map<string, EarnClaim.Trace>,
    rows: map<nat, Withdrawals.Row>,
    jobs: map<nat, Withdrawals.Job>,
    history: map<nat, Withdrawals.History>,
    settled: seq<nat>,
    campaigns: map<nat, AdBudget.Campaign>,
    views: map<SessionKey, nat>)  // the campaign whose budget a PTC session uses

  const INIT := World(BLANK, map[], map[], map[], map[], map[], map[], map[], map[], map[], [], map[], map[])

  // ----- The three areas of one state -----

  function EarnOf(w: World): EarnClaim.System {
    EarnClaim.System(EarnClaim.Db(w.sessions, w.challenges, w.lifetime, w.books), w.requests, w.verifiers, w.traces)
  }

  function WithEarn(w: World, s: EarnClaim.System): World {
    w.(books := s.db.books, sessions := s.db.sessions, challenges := s.db.challenges, lifetime := s.db.lifetime,
       requests := s.requests, verifiers := s.verifiers, traces := s.traces)
  }

  function PayoutsOf(w: World): Withdrawals.System {
    Withdrawals.System(Withdrawals.Db(w.rows, w.books), w.jobs, w.history, w.settled)
  }

  function WithPayouts(w: World, s: Withdrawals.System): World {
    w.(books := s.db.books, rows := s.db.rows, jobs := s.jobs, history := s.history, settled := s.settled)
  }

  function AdsOf(w: World): AdLedger.Db {
    AdLedger.Db(w.campaigns, w.books)
  }

  function WithAds(w: World, db: AdLedger.Db): World {
    w.(books := db.books, campaigns := db.campaigns)
  }

  // ----- Interleaving -----

  datatype Step =
    | Register(user: nat, referrer: Option<nat>)
    | Earn(earn: EarnClaim.Step)
    | Payout(payout: Withdrawals.Step)
    | Campaign(ad: AdLedger.Step)
    | OpenView(id: nat, view: nat, viewer: nat, token: string)  // PtcController::start
    | Complete(request: nat, fault: EarnClaim.Fault, rates: Commission.Rates, snapshot: int)  // a credit with its hook

  function Key(view: nat): SessionKey { SessionKey(PtcView, view) }

  /** A campaign's session credits through `Complete`, and its requests carry the campaign's reward. */
  predicate MayEarn(w: World, s: EarnClaim.Step) {
    match s
    case Register(_, _) => false
    case PostElsewhere(_, _, _, _) => false
    case PayoutElsewhere(_, _) => false
    case Credit(r, _, _) => r !in w.requests || w.requests[r].key !in w.views
    case Arrive(_, key, _, _, _, reward) =>
      key !in w.views || (w.views[key] in w.campaigns && reward == w.campaigns[w.views[key]].ad.reward)
    case _ => true
  }

  predicate MayPay(s: Withdrawals.Step) {
    !s.Register? && !s.PostElsewhere?
  }

  /** Views are started and credited by `OpenView` and `Complete`. */
  predicate MayAdvertise(s: AdLedger.Step) {
    match s
    case Fund(_, _, _, _, _, _, _) => true
    case RejectAd(_) => true
    case Change(_, step) => step.ApproveStep? || step.SetActiveStep?
    case _ => false
  }

  /** PtcController::start serves approved, active, funded campaigns to other users than their owner. */
  predicate MayOpen(w: World, id: nat, view: nat, viewer: nat) {
    && id in w.campaigns && AdBudget.Servable(w.campaigns[id])
    && viewer in w.books.users && viewer != w.campaigns[id].owner && Key(view) !in w.sessions
  }

  function OpenTx(w: World, id: nat, view: nat, viewer: nat, token: string): World {
    if !MayOpen(w, id, view, viewer) then w
    else
      WithEarn(w, EarnClaim.Next(EarnOf(w), EarnClaim.StartSession(Key(view), viewer, token))).(
        campaigns := w.campaigns[id := AdBudget.StartView(w.campaigns[id], view)],
        views := w.views[Key(view) := id])
  }

  /** A request about to credit a session that belongs to a campaign. */
  predicate MayComplete(w: World, r: nat) {
    EarnClaim.At(EarnOf(w), r, EarnClaim.AtCredit) && w.requests[r].key in w.views
      && w.views[w.requests[r].key] in w.campaigns
  }

  /** What the hook does to the campaign when the credit commits. */
  function HookStep(w: World, r: nat, rates: Commission.Rates, snapshot: int): AdBudget.Step
    requires r in w.requests
  {
    var q := w.requests[r];
    var referred := q.user in w.books.users && w.books.users[q.user].referrer.Some?;
    AdBudget.CreditStep(q.key.id, snapshot, referred, rates)
  }

  /** The credit commits. */
  predicate Commits(w: World, r: nat, fault: EarnClaim.Fault, rates: Commission.Rates)
    requires r in w.requests
  {
    var q := w.requests[r];
    EarnClaim.CreditTx(EarnOf(w).db, q.key, q.user, q.reward, rates, fault.Fails?).Committed?
  }

  function CompleteTx(w: World, r: nat, fault: EarnClaim.Fault, rates: Commission.Rates, snapshot: int): World {
    if !MayComplete(w, r) then w
    else
      var w' := WithEarn(w, EarnClaim.Next(EarnOf(w), EarnClaim.Credit(r, fault, rates)));
      if !Commits(w, r, fault, rates) then w'
      else
        var id := w.views[w.requests[r].key];
        w'.(campaigns := w.campaigns[id := AdBudget.Next(w.campaigns[id], HookStep(w, r, rates, snapshot))])
  }

  /** One transaction of one process; a step that is not enabled changes nothing. */
  function Next(w: World, step: Step): World {
    match step
    case Register(u, referrer) => WithEarn(w, EarnClaim.Next(EarnOf(w), EarnClaim.Register(u, referrer)))
    case Earn(s) => if MayEarn(w, s) then WithEarn(w, EarnClaim.Next(EarnOf(w), s)) else w
    case Payout(s) => if MayPay(s) then WithPayouts(w, Withdrawals.Next(PayoutsOf(w), s)) else w
    case Campaign(s) => if MayAdvertise(s) then WithAds(w, AdLedger.Next(AdsOf(w), s)) else w
    case OpenView(id, view, viewer, token) => OpenTx(w, id, view, viewer, token)
    case Complete(r, fault, rates, snapshot) => CompleteTx(w, r, fault, rates, snapshot)
  }

  function Run(w: World, steps: seq<Step>): World
    decreases |steps|
  {
    if steps == [] then w else Run(Next(w, steps[0]), steps[1..])
  }
}
