/**
 * The view budget of a user-funded campaign: AdvertiseController::store charges it,
 * PtcController serves and credits its views, PtcAdResource approves it or rejects it with a
 * refund. What these write to the shared ledger is in `AdLedger`.
 */
module AdBudget {
  import opened Common
  import Arith
  import Commission

  datatype AdStatus = PendingReview | Approved | Completed | Rejected

  datatype Ad = Ad(
    status: AdStatus,
    active: bool,
    purchased: nat,
    viewsRemaining: int,
    costPerView: int,
    reward: nat)

  /**
   * The ad row with its advertiser, and history variables: views started and not credited,
   * how many were credited, what they paid out, how many were returned by a rejection, and
   * how many were credited when the budget was already used up.
   */
  datatype Campaign = Campaign(
    ad: Ad,
    owner: nat,
    open: set<nat>,
    credited: nat,
    paid: nat,
    returned: nat,
    overdrawn: nat)

  // ----- Transactions -----

  /** The row that AdvertiseController::store inserts. */
  function Fresh(owner: nat, reward: nat, views: nat, rates: Commission.Rates, autoApprove: bool): Campaign {
    Campaign(
      Ad(if autoApprove then Approved else PendingReview, autoApprove, views, views,
         Commission.CostPerView(reward, rates), reward),
      owner, {}, 0, 0, 0, 0)
  }

  /** The approve action: a write without a status guard. */
  function Approve(c: Campaign): Campaign {
    c.(ad := c.ad.(status := Approved, active := true))
  }

  /** The advertiser pauses or resumes. */
  function SetActive(c: Campaign, active: bool): Campaign {
    c.(ad := c.ad.(active := active))
  }

  /** A campaign whose views may be started. */
  predicate Servable(c: Campaign) {
    c.ad.active && c.ad.status == Approved && c.ad.viewsRemaining > 0
  }

  /** PtcController::start. */
  function StartView(c: Campaign, view: nat): Campaign {
    if Servable(c) then c.(open := c.open + {view}) else c
  }

  /** The post-credit hook: an unguarded decrement, then a check of the value read earlier. */
  function PostCredit(ad: Ad, snapshot: int): Ad {
    var used := ad.(viewsRemaining := ad.viewsRemaining - 1);
    if snapshot - 1 <= 0 then used.(status := Completed, active := false) else used
  }

  /** What one credited view pays: the viewer, and the viewer's referrer if there is one. */
  function Payout(reward: nat, referred: bool, rates: Commission.Rates): nat {
    reward + if referred then Commission.Of(reward, rates) else 0
  }

  /** One credited view. */
  function CreditView(c: Campaign, view: nat, snapshot: int, referred: bool, rates: Commission.Rates): Campaign {
    if view !in c.open then c
    else
      c.(ad := PostCredit(c.ad, snapshot),
         open := c.open - {view},
         credited := c.credited + 1,
         paid := c.paid + Payout(c.ad.reward, referred, rates),
         overdrawn := c.overdrawn + if c.ad.viewsRemaining > 0 then 0 else 1)
  }

  /** The status guard of the reject action. */
  predicate Rejectable(c: Campaign) {
    c.ad.status == PendingReview || c.ad.status == Approved
  }

  /** What the reject action gives back. */
  function RefundOf(c: Campaign): int {
    c.ad.viewsRemaining * c.ad.costPerView
  }

  /** The reject action: guarded by status, returning the views that remain. */
  function Reject(c: Campaign): Campaign {
    if !Rejectable(c) then c
    else
      c.(ad := c.ad.(status := Rejected, active := false, viewsRemaining := 0),
         returned := c.returned + Max(0, c.ad.viewsRemaining))
  }

  // ----- Runs -----

  datatype Step =
    | ApproveStep
    | SetActiveStep(active: bool)
    | StartStep(view: nat)
    | CreditStep(view: nat, snapshot: int, referred: bool, rates: Commission.Rates)
    | RejectStep

  function Next(c: Campaign, step: Step): Campaign {
    match step
    case ApproveStep => Approve(c)
    case SetActiveStep(active) => SetActive(c, active)
    case StartStep(view) => StartView(c, view)
    case CreditStep(view, snapshot, referred, rates) => CreditView(c, view, snapshot, referred, rates)
    case RejectStep => Reject(c)
  }

  function Run(c: Campaign, steps: seq<Step>): Campaign
    decreases |steps|
  {
    if steps == [] then c else Run(Next(c, steps[0]), steps[1..])
  }

  // ----- Counting views -----

  function Funded(c: Campaign): int {
    c.ad.costPerView * c.ad.purchased
  }

  function Refunded(c: Campaign): int {
    c.ad.costPerView * c.returned
  }

  /** What the campaign has paid out and given back stays within what it was charged. */
  predicate Solvent(c: Campaign) {
    c.paid + Refunded(c) <= Funded(c)
  }

  /**
   * Every view bought is credited, returned or left, except that overdrawn credits come on
   * top; and once a view was returned or overdrawn none is left.
   */
  ghost predicate Accounts(c: Campaign) {
    && c.ad.costPerView >= 0
    && c.credited + c.returned + Max(0, c.ad.viewsRemaining) == c.ad.purchased + c.overdrawn
    && c.overdrawn <= c.credited
    && (c.overdrawn > 0 || c.returned > 0 ==> c.ad.viewsRemaining <= 0)
  }

  lemma StepKeepsAccounts(c: Campaign, step: Step)
    requires Accounts(c)
    ensures Accounts(Next(c, step)) && SameOffer(c, Next(c, step))
  {
  }

  /** The owner, the views bought, their price and their reward never change. */
  predicate SameOffer(c: Campaign, c': Campaign) {
    && c'.owner == c.owner && c'.ad.purchased == c.ad.purchased
    && c'.ad.costPerView == c.ad.costPerView && c'.ad.reward == c.ad.reward
  }

  lemma {:induction false} RunKeepsAccounts(c: Campaign, steps: seq<Step>)
    requires Accounts(c)
    ensures Accounts(Run(c, steps)) && SameOffer(c, Run(c, steps))
    decreases |steps|
  {
    if steps != [] {
      StepKeepsAccounts(c, steps[0]);
      RunKeepsAccounts(Next(c, steps[0]), steps[1..]);
    }
  }

  lemma FreshAccounts(owner: nat, reward: nat, views: nat, rates: Commission.Rates, autoApprove: bool)
    requires Commission.CostPerView(reward, rates) >= 0
    ensures Accounts(Fresh(owner, reward, views, rates, autoApprove))
  {
  }

  // ----- When a campaign closes -----

  /** A view opens exactly on an active, approved campaign with views left, and changes nothing else. */
  lemma StartDecides(c: Campaign, view: nat)
    requires view !in c.open
    ensures
      var c' := StartView(c, view);
      && (view in c'.open <==> c.ad.active && c.ad.status == Approved && c.ad.viewsRemaining >= 1)
      && c'.ad == c.ad && c'.paid == c.paid && c'.open <= c.open + {view}
  {
  }

  /** Approval shows a campaign as long as views are left; pausing hides it, and resuming undoes that. */
  lemma SwitchesDecide(c: Campaign)
    ensures Servable(Approve(c)) <==> c.ad.viewsRemaining >= 1
    ensures !Servable(SetActive(c, false))
    ensures Servable(c) ==> SetActive(SetActive(c, false), true) == c
    ensures Approve(c).ad.viewsRemaining == c.ad.viewsRemaining && Approve(c).(ad := c.ad) == c
  {
  }

  /** One credited view: its budget, and the end of the campaign by the value in memory. */
  lemma CreditDecides(c: Campaign, view: nat, snapshot: int, referred: bool, rates: Commission.Rates)
    requires view in c.open
    ensures
      var c' := CreditView(c, view, snapshot, referred, rates);
      && c'.open == c.open - {view} && c'.ad.viewsRemaining == c.ad.viewsRemaining - 1
      && (snapshot <= 1 ==> c'.ad.status == Completed && !c'.ad.active)
      && (snapshot >= 2 ==> c'.ad.status == c.ad.status && c'.ad.active == c.ad.active)
      && c'.paid == c.paid + c.ad.reward + (if referred then Commission.Of(c.ad.reward, rates) else 0)
  {
  }

  /** Credits read the row as it is, and nobody approves a campaign that has no views left. */
  predicate Orderly(c: Campaign, steps: seq<Step>)
    decreases |steps|
  {
    steps != [] ==>
      && (steps[0].CreditStep? ==> steps[0].snapshot == c.ad.viewsRemaining)
      && (steps[0].ApproveStep? ==> c.ad.viewsRemaining > 0)
      && Orderly(Next(c, steps[0]), steps[1..])
  }

  /** A campaign with no views left is over. */
  predicate Closed(c: Campaign) {
    c.ad.viewsRemaining <= 0 ==> c.ad.status in {Completed, Rejected}
  }

  lemma {:induction false} RunCloses(c: Campaign, steps: seq<Step>)
    requires Closed(c) && Orderly(c, steps)
    ensures Closed(Run(c, steps))
    decreases |steps|
  {
    if steps != [] { RunCloses(Next(c, steps[0]), steps[1..]); }
  }

  /** In orderly runs the last view bought completes the campaign. */
  lemma ExhaustedIsOver(owner: nat, reward: nat, views: nat, rates: Commission.Rates, autoApprove: bool,
    steps: seq<Step>)
    requires views > 0 && Orderly(Fresh(owner, reward, views, rates, autoApprove), steps)
    ensures Closed(Run(Fresh(owner, reward, views, rates, autoApprove), steps))
  {
    RunCloses(Fresh(owner, reward, views, rates, autoApprove), steps);
  }

  lemma RunFour(c: Campaign, s1: Step, s2: Step, s3: Step, s4: Step)
    ensures Run(c, [s1, s2, s3, s4]) == Next(Next(Next(Next(c, s1), s2), s3), s4)
  {
    assert [s1, s2, s3, s4][1..] == [s2, s3, s4] && [s2, s3, s4][1..] == [s3, s4] && [s3, s4][1..] == [s4];
    var c3 := Next(Next(Next(c, s1), s2), s3);
    assert Run(Next(c3, s4), [s4][1..]) == Next(c3, s4);
    assert Run(c3, [s4]) == Next(c3, s4);
    assert Run(Next(c, s1), [s2, s3, s4]) == Run(Next(Next(c, s1), s2), [s3, s4]);
  }

  /** Two requests that both read two views left use them up, and the campaign stays approved. */
  lemma StaleReadsKeepItApproved(owner: nat, reward: nat, rates: Commission.Rates)
    ensures
      var steps := [StartStep(0), StartStep(1), CreditStep(0, 2, false, rates), CreditStep(1, 2, false, rates)];
      var c := Run(Fresh(owner, reward, 2, rates, true), steps);
      c.ad.viewsRemaining == 0 && c.ad.status == Approved && !Servable(c)
  {
    var c0 := Fresh(owner, reward, 2, rates, true);
    var s3, s4 := CreditStep(0, 2, false, rates), CreditStep(1, 2, false, rates);
    RunFour(c0, StartStep(0), StartStep(1), s3, s4);
    BothCredited(c0.(open := {0} + {1}), rates);
  }

  lemma BothCredited(c: Campaign, rates: Commission.Rates)
    requires c.open == {0} + {1} && c.ad.viewsRemaining == 2 && c.ad.status == Approved
    ensures
      var c' := CreditView(CreditView(c, 0, 2, false, rates), 1, 2, false, rates);
      c'.ad.viewsRemaining == 0 && c'.ad.status == Approved
  {
    CreditDecides(c, 0, 2, false, rates);
    CreditDecides(CreditView(c, 0, 2, false, rates), 1, 2, false, rates);
  }

  // ----- Payouts against the budget -----

  /** No credit pays more than `most`. */
  predicate PaysAtMost(steps: seq<Step>, reward: nat, most: nat) {
    forall i :: 0 <= i < |steps| && steps[i].CreditStep? ==> Payout(reward, true, steps[i].rates) <= most
  }

  lemma {:induction false} RunPaysAtMost(c: Campaign, steps: seq<Step>, most: nat)
    requires PaysAtMost(steps, c.ad.reward, most) && c.paid <= most * c.credited
    ensures Run(c, steps).paid <= most * Run(c, steps).credited
    decreases |steps|
  {
    if steps != [] {
      var c' := Next(c, steps[0]);
      Arith.Distribute(most, c.credited, 1);
      assert steps[0].CreditStep? ==> Payout(c.ad.reward, true, steps[0].rates) <= most;
      RunPaysAtMost(c', steps[1..], most);
    }
  }

  /** The percentages in force at each credit stay within the one charged at submission. */
  predicate RatesHold(steps: seq<Step>, charged: Commission.Rates) {
    forall i :: 0 <= i < |steps| && steps[i].CreditStep? ==>
      Commission.EffectivePct(steps[i].rates) <= charged.platformPct
  }

  lemma RatesHoldPays(steps: seq<Step>, reward: nat, charged: Commission.Rates)
    requires charged.platformPct >= 0 && RatesHold(steps, charged)
    ensures 0 <= Commission.CostPerView(reward, charged)
      && PaysAtMost(steps, reward, Commission.CostPerView(reward, charged))
  {
    Commission.CostCoversPayout(reward, charged);
    forall i | 0 <= i < |steps| && steps[i].CreditStep?
      ensures Payout(reward, true, steps[i].rates) <= Commission.CostPerView(reward, charged)
    {
      Commission.CostCoversLaterPayout(reward, charged, steps[i].rates);
    }
  }

  /** With payouts of at most `most` a view, the budget carries all views within it. */
  lemma OutflowBound(c: Campaign, most: nat)
    requires Accounts(c) && c.paid <= most * c.credited && most <= c.ad.costPerView
    ensures c.paid + Refunded(c) <= Funded(c) + most * c.overdrawn
  {
    var k, n, rest := c.ad.costPerView, c.ad.purchased, c.ad.purchased - c.returned;
    Arith.Distribute(k, n, c.returned);
    Arith.Distribute(most, rest, c.overdrawn);
    Arith.MulMono(c.credited, rest + c.overdrawn, most);
    Arith.MulMono(0, rest, k - most);
    Arith.DistributeRight(k, most, rest);
  }

  /**
   * Over every run, payouts and refund exceed the funding by at most the price of the
   * overdrawn views; without any, they stay within it.
   */
  lemma OverrunIsOverdrawnViews(owner: nat, reward: nat, views: nat, rates: Commission.Rates, autoApprove: bool,
    steps: seq<Step>)
    requires rates.platformPct >= 0 && RatesHold(steps, rates)
    ensures
      var c := Run(Fresh(owner, reward, views, rates, autoApprove), steps);
      && c.paid + Refunded(c) <= Funded(c) + c.ad.costPerView * c.overdrawn
      && (c.overdrawn == 0 ==> Solvent(c))
  {
    var c0 := Fresh(owner, reward, views, rates, autoApprove);
    Commission.CostCoversPayout(reward, rates);
    FreshAccounts(owner, reward, views, rates, autoApprove);
    RunKeepsAccounts(c0, steps);
    RatesHoldPays(steps, reward, rates);
    RunPaysAtMost(c0, steps, c0.ad.costPerView);
    OutflowBound(Run(c0, steps), c0.ad.costPerView);
  }
}
