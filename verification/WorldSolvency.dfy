/**
 * Exactly when campaigns stay within their funding: over the runs of the whole platform,
 * read off the ledger. The runs that exceed it are built step by step, from the first
 * registration to the last credit.
 */
module WorldSolvency {
  import opened Common
  import opened Books
  import opened World
  import opened WorldAreas
  import EarnClaim
  import EarnClaimLedger
  import AdBudget
  import AdLedger
  import Commission
  import Arith
  import WorldViews

  /** One reward, one number of views and one configuration for all campaigns of a run. */
  datatype Offer = Offer(reward: nat, views: nat, rates: Commission.Rates)

  function Price(o: Offer): int {
    Commission.CostPerView(o.reward, o.rates)
  }

  /** The largest payout of a view: with a commission. */
  function Most(o: Offer): nat {
    AdBudget.Payout(o.reward, true, o.rates)
  }

  predicate KeepsStep(step: Step, o: Offer) {
    match step
    case Campaign(s) => s.Fund? ==> s.reward == o.reward && s.views == o.views && s.rates == o.rates
    case Complete(_, _, rates, _) => rates == o.rates
    case _ => true
  }

  /** Every campaign is funded, and every view credited, on these terms. */
  predicate Keeps(steps: seq<Step>, o: Offer) {
    forall step :: step in steps ==> KeepsStep(step, o)
  }

  // ----- The ledger of a campaign -----

  /** The sum of all rows that refer to one thing. */
  function RefTotal(ledger: seq<LedgerRow>, ref: Ref): int {
    if ledger == [] then 0
    else
      var last := ledger[|ledger| - 1];
      RefTotal(ledger[..|ledger| - 1], ref) + (if last.ref == ref then last.delta else 0)
  }

  /** The ledger pays out no more for the views of a campaign than its own rows brought in. */
  predicate WithinFunding(w: World, id: nat) {
    WorldViews.PaidFor(w.books.ledger, w.views, id) + RefTotal(w.books.ledger, AdRef(id)) <= 0
  }

  lemma RefTotalAppend(ledger: seq<LedgerRow>, row: LedgerRow, ref: Ref)
    ensures RefTotal(ledger + [row], ref) == RefTotal(ledger, ref) + (if row.ref == ref then row.delta else 0)
  {
    assert (ledger + [row])[..|ledger|] == ledger;
  }

  lemma {:induction false} RefTotalOfEntries(ledger: seq<LedgerRow>, id: nat)
    ensures RefTotal(ledger, AdRef(id)) == RefTotal(AdLedger.EntriesFor(ledger, id), AdRef(id))
  {
    if ledger != [] {
      var front, last := ledger[..|ledger| - 1], ledger[|ledger| - 1];
      RefTotalOfEntries(front, id);
      RefTotalAppend(AdLedger.EntriesFor(front, id), last, AdRef(id));
      assert AdLedger.EntriesFor(front, id) + [] == AdLedger.EntriesFor(front, id);
    }
  }

  lemma JournalTotal(owner: nat, funded: int, refunded: int, id: nat)
    ensures RefTotal(AdLedger.JournalRows(owner, funded, refunded, id), AdRef(id)) == Max(0, refunded) - funded
  {
    var first := LedgerRow(owner, -funded, AdFunding, AdRef(id));
    var second := LedgerRow(owner, refunded, AdRefund, AdRef(id));
    RefTotalAppend([], first, AdRef(id));
    assert [] + [first] == [first];
    RefTotalAppend([first], second, AdRef(id));
  }

  // ----- What every run on these terms keeps -----

  /** The campaign is on these terms, its views are accounted for, and none paid more than the most. */
  ghost predicate OnTerms(c: AdBudget.Campaign, o: Offer) {
    && c.ad.reward == o.reward && c.ad.purchased == o.views && c.ad.costPerView == Price(o)
    && AdBudget.Accounts(c) && c.paid <= Most(o) * c.credited
  }

  ghost predicate AllOnTerms(w: World, o: Offer) {
    forall id :: id in w.campaigns ==> OnTerms(w.campaigns[id], o)
  }

  lemma ChangeKeepsTerms(c: AdBudget.Campaign, step: AdBudget.Step, o: Offer)
    requires OnTerms(c, o) && (step.CreditStep? ==> step.rates == o.rates)
    ensures OnTerms(AdBudget.Next(c, step), o)
  {
    AdBudget.StepKeepsAccounts(c, step);
    Arith.Distribute(Most(o), c.credited, 1);
  }

  lemma StepKeepsTerms(w: World, step: Step, o: Offer)
    requires AllOnTerms(w, o) && KeepsStep(step, o) && Price(o) >= 0
    ensures AllOnTerms(Next(w, step), o)
  {
    var w' := Next(w, step);
    forall id | id in w'.campaigns ensures OnTerms(w'.campaigns[id], o) {
      if id in w.campaigns {
        WorldViews.CampaignEvolves(w, step, id);
        if w'.campaigns[id] != w.campaigns[id] {
          var s :| WorldViews.Changes(step, w.campaigns[id], w'.campaigns[id], s);
          ChangeKeepsTerms(w.campaigns[id], s, o);
        }
      } else {
        WorldViews.CampaignBegins(w, step, id);
        AdBudget.FreshAccounts(step.ad.owner, o.reward, o.views, o.rates, step.ad.autoApprove);
      }
    }
  }

  lemma {:induction false} RunKeepsTerms(w: World, steps: seq<Step>, o: Offer)
    requires AllOnTerms(w, o) && Keeps(steps, o) && Price(o) >= 0
    ensures AllOnTerms(Run(w, steps), o)
    decreases |steps|
  {
    if steps != [] {
      assert steps[0] in steps;
      StepKeepsTerms(w, steps[0], o);
      RunKeepsTerms(Next(w, steps[0]), steps[1..], o);
    }
  }

  /** On the platform the ledger says of a campaign what its counters say. */
  lemma LedgerIsCounters(steps: seq<Step>, id: nat, o: Offer)
    requires Keeps(steps, o) && Price(o) >= 0 && id in Run(INIT, steps).campaigns
    ensures
      var w := Run(INIT, steps);
      var c := w.campaigns[id];
      && OnTerms(c, o)
      && WorldViews.PaidFor(w.books.ledger, w.views, id) == c.paid
      && RefTotal(w.books.ledger, AdRef(id)) == AdBudget.Refunded(c) - AdBudget.Funded(c)
  {
    var w := Run(INIT, steps);
    RunKeepsTerms(INIT, steps, o);
    WorldViews.RunKeepsViews(INIT, steps);
    KeepsIsSane(steps, o);
    var own := AdsRun(INIT, steps);
    AdLedger.RunKeepsAds(AdLedger.INIT, own);
    assert AdLedger.AdInv(AdsOf(w));
    assert OnTerms(w.campaigns[id], o) && WorldViews.PaidSane(w, id);
    VerdictIs(w, id);
  }

  lemma VerdictIs(w: World, id: nat)
    requires id in w.campaigns && AdBudget.Accounts(w.campaigns[id]) && AdLedger.Journaled(AdsOf(w))
    requires WorldViews.PaidSane(w, id)
    ensures
      var c := w.campaigns[id];
      && WorldViews.PaidFor(w.books.ledger, w.views, id) == c.paid
      && RefTotal(w.books.ledger, AdRef(id)) == AdBudget.Refunded(c) - AdBudget.Funded(c)
  {
    var c := w.campaigns[id];
    assert AdLedger.EntriesFor(AdsOf(w).books.ledger, id) == AdLedger.Journal(AdsOf(w).campaigns, id);
    RefTotalOfEntries(w.books.ledger, id);
    JournalTotal(c.owner, AdBudget.Funded(c), AdBudget.Refunded(c), id);
    Arith.MulMono(0, c.returned, c.ad.costPerView);
  }

  lemma KeepsIsSane(steps: seq<Step>, o: Offer)
    requires Keeps(steps, o) && Price(o) >= 0
    ensures SaneCharges(steps)
  {
    forall i | 0 <= i < |steps| && steps[i].Campaign? ensures AdLedger.SaneCharge(steps[i].ad) {
      assert steps[i] in steps;
    }
  }

  // ----- Building runs -----

  lemma {:induction false} WorldRunAppend(w: World, a: seq<Step>, b: seq<Step>)
    ensures Run(w, a + b) == Run(Run(w, a), b)
    decreases |a|
  {
    if a == [] {
      assert a + b == b;
    } else {
      assert (a + b)[1..] == a[1..] + b;
      WorldRunAppend(Next(w, a[0]), a[1..], b);
    }
  }

  /** One step, as a run that keeps the terms. */
  lemma Single(w: World, step: Step, o: Offer) returns (steps: seq<Step>)
    requires KeepsStep(step, o)
    ensures Keeps(steps, o) && Run(w, steps) == Next(w, step)
  {
    steps := [step];
    assert Run(Next(w, step), [step][1..]) == Next(w, step);
  }

  /** One run and then another. */
  lemma Then(w: World, a: seq<Step>, b: seq<Step>, o: Offer)
    requires Keeps(a, o) && Keeps(b, o)
    ensures Keeps(a + b, o) && Run(w, a + b) == Run(Run(w, a), b)
  {
    WorldRunAppend(w, a, b);
  }

  /** From this state of stage `j` some steps lead to the next stage. */
  ghost predicate Advances(stage: (World, nat) -> bool, w: World, j: nat, o: Offer) {
    exists steps :: Keeps(steps, o) && stage(Run(w, steps), j + 1)
  }

  /** What advances stage by stage reaches every stage. */
  lemma {:induction false} Iterate(stage: (World, nat) -> bool, w: World, k: nat, o: Offer) returns (steps: seq<Step>)
    requires stage(w, 0)
    requires forall s, j: nat :: j < k && stage(s, j) ==> Advances(stage, s, j, o)
    ensures Keeps(steps, o) && stage(Run(w, steps), k)
    decreases k
  {
    if k == 0 {
      steps := [];
    } else {
      var front := Iterate(stage, w, k - 1, o);
      assert Advances(stage, Run(w, front), k - 1, o);
      var last :| Keeps(last, o) && stage(Run(Run(w, front), last), k);
      Then(w, front, last, o);
      steps := front + last;
    }
  }

  // ----- One request reaches its credit -----

  /** A request as it goes to its credit. */
  datatype Claim = Claim(request: nat, key: SessionKey, user: nat, captcha: string, reward: int)

  /** The captcha of view `j`: a string of its own. */
  function Name(j: nat): string {
    seq(j + 2, _ => 'c')
  }

  /** The claim of view `j`; request 0 and the shortest name were the advertiser's. */
  function View(j: nat, reward: int): Claim {
    Claim(j + 1, Key(j), 1, Name(j), reward)
  }

  /** The captcha stands at this status, and belongs to the user. */
  function Captcha(w: World, cl: Claim, status: EarnClaim.ChallengeStatus): World {
    w.(challenges := w.challenges[cl.captcha := EarnClaim.Challenge(Some(cl.user), status)])
  }

  /** The captcha was issued to the user and is being verified. */
  function Issued(w: World, cl: Claim): World {
    Captcha(w, cl, EarnClaim.ChIssued).(verifiers := map[cl.request := cl.captcha])
  }

  /** The captcha was issued to the user and solved. */
  function Solved(w: World, cl: Claim): World {
    Captcha(w, cl, EarnClaim.ChVerified).(traces := w.traces[cl.captcha := EarnClaim.Trace(0, 0, 0)])
  }

  /** Nobody has used the name of the captcha, and no verifier is at work. */
  ghost predicate Unused(w: World, cl: Claim) {
    && cl.captcha !in w.challenges && cl.captcha !in w.traces && w.verifiers == map[]
    && (forall r :: r in w.requests ==> w.requests[r].challengeId != cl.captcha)
  }

  lemma IssueRuns(w: World, cl: Claim)
    requires cl.captcha !in w.challenges
    ensures Next(w, Earn(EarnClaim.IssueChallenge(cl.captcha, Some(cl.user)))) == Captcha(w, cl, EarnClaim.ChIssued)
  {
  }

  lemma ReadRuns(w: World, cl: Claim)
    requires w.verifiers == map[]
    ensures Next(Captcha(w, cl, EarnClaim.ChIssued), Earn(EarnClaim.VerifyRead(cl.request, cl.captcha)))
      == Issued(w, cl)
  {
  }

  lemma Issue(w: World, cl: Claim, o: Offer) returns (steps: seq<Step>)
    requires Unused(w, cl)
    ensures Keeps(steps, o) && Run(w, steps) == Issued(w, cl)
  {
    var w1 := Captcha(w, cl, EarnClaim.ChIssued);
    var a := Single(w, Earn(EarnClaim.IssueChallenge(cl.captcha, Some(cl.user))), o);
    var b := Single(w1, Earn(EarnClaim.VerifyRead(cl.request, cl.captcha)), o);
    IssueRuns(w, cl);
    ReadRuns(w, cl);
    Then(w, a, b, o);
    steps := a + b;
  }

  lemma WriteSolves(w: World, cl: Claim)
    requires w.verifiers == map[cl.request := cl.captcha] && cl.captcha !in w.traces
    requires cl.captcha in w.challenges && w.challenges[cl.captcha].user == Some(cl.user)
    requires forall r :: r in w.requests ==> w.requests[r].challengeId != cl.captcha
    ensures Next(w, Earn(EarnClaim.VerifyWrite(cl.request, EarnClaim.Pass))) == Solved(w, cl).(verifiers := map[])
  {
    assert EarnClaim.Holders(w.requests, cl.captcha) == {};
    assert w.verifiers - {cl.request} == map[];
  }

  lemma SolvedLast(w: World, cl: Claim)
    requires w.verifiers == map[]
    ensures Solved(Issued(w, cl), cl).(verifiers := map[]) == Solved(w, cl)
  {
  }

  lemma Solve(w: World, cl: Claim, o: Offer) returns (steps: seq<Step>)
    requires Unused(w, cl)
    ensures Keeps(steps, o) && Run(w, steps) == Solved(w, cl)
  {
    var a := Issue(w, cl, o);
    var b := Single(Issued(w, cl), Earn(EarnClaim.VerifyWrite(cl.request, EarnClaim.Pass)), o);
    WriteSolves(Issued(w, cl), cl);
    SolvedLast(w, cl);
    Then(w, a, b, o);
    steps := a + b;
  }

  /** The user's request stands at `pc`. */
  function Requested(w: World, cl: Claim, pc: EarnClaim.Pc): World {
    w.(requests := w.requests[cl.request := EarnClaim.Request(cl.key, cl.user, cl.captcha, cl.reward, pc, false)])
  }

  /** The user's request has consumed the captcha and passed the gates. */
  function Approached(w: World, cl: Claim): World {
    Requested(Captcha(w, cl, EarnClaim.ChConsumed), cl, EarnClaim.AtCredit)
  }

  /** The user's session is pending, and pays what the claim says. */
  ghost predicate Admitted(w: World, cl: Claim) {
    && cl.user in w.books.users && cl.request !in w.requests
    && cl.key in w.sessions && w.sessions[cl.key] == EarnClaim.Session(cl.user, "t", EarnClaim.Pending)
    && (cl.key in w.views ==>
          w.views[cl.key] in w.campaigns && cl.reward == w.campaigns[w.views[cl.key]].ad.reward)
  }

  lemma ArriveRuns(w: World, cl: Claim)
    requires Admitted(w, cl)
    ensures
      Next(w, Earn(EarnClaim.Arrive(cl.request, cl.key, cl.user, "t", cl.captcha, cl.reward)))
        == Requested(w, cl, EarnClaim.AtConsume)
  {
  }

  lemma ConsumeIs(sys: EarnClaim.System, r: nat)
    requires EarnClaim.At(sys, r, EarnClaim.AtConsume)
    requires EarnClaim.Spendable(sys.db, sys.requests[r].challengeId, sys.requests[r].user)
    ensures EarnClaim.Next(sys, EarnClaim.Consume(r))
      == EarnClaim.Goto(
           sys.(db := EarnClaim.SetChallenge(sys.db, sys.requests[r].challengeId, EarnClaim.ChConsumed)), r,
           EarnClaim.AtGates)
  {
  }

  lemma ConsumeRuns(w: World, cl: Claim)
    requires cl.captcha in w.challenges && cl.captcha != ""
    requires w.challenges[cl.captcha] == EarnClaim.Challenge(Some(cl.user), EarnClaim.ChVerified)
    ensures Next(Requested(w, cl, EarnClaim.AtConsume), Earn(EarnClaim.Consume(cl.request)))
      == Requested(Captcha(w, cl, EarnClaim.ChConsumed), cl, EarnClaim.AtGates)
  {
    var s := Requested(w, cl, EarnClaim.AtConsume);
    ConsumeIs(EarnOf(s), cl.request);
    RequestedLast(w, cl, EarnClaim.AtConsume, EarnClaim.AtGates);
  }

  /** A request that moves on stands where it moved. */
  lemma RequestedLast(w: World, cl: Claim, from: EarnClaim.Pc, to: EarnClaim.Pc)
    ensures
      var s := Requested(w, cl, from);
      s.requests[cl.request := s.requests[cl.request].(pc := to)] == Requested(w, cl, to).requests
  {
  }

  lemma GateRuns(w: World, cl: Claim)
    ensures Next(Requested(w, cl, EarnClaim.AtGates), Earn(EarnClaim.GatePass(cl.request)))
      == Requested(w, cl, EarnClaim.AtCredit)
  {
    RequestedLast(w, cl, EarnClaim.AtGates, EarnClaim.AtCredit);
  }

  lemma Enter(w: World, cl: Claim, o: Offer) returns (steps: seq<Step>)
    requires Admitted(w, cl) && cl.captcha in w.challenges && cl.captcha != ""
    requires w.challenges[cl.captcha] == EarnClaim.Challenge(Some(cl.user), EarnClaim.ChVerified)
    ensures Keeps(steps, o) && Run(w, steps) == Approached(w, cl)
  {
    var w1 := Requested(w, cl, EarnClaim.AtConsume);
    var spent := Captcha(w, cl, EarnClaim.ChConsumed);
    var w2 := Requested(spent, cl, EarnClaim.AtGates);
    var a := Single(w, Earn(EarnClaim.Arrive(cl.request, cl.key, cl.user, "t", cl.captcha, cl.reward)), o);
    ArriveRuns(w, cl);
    var b := Single(w1, Earn(EarnClaim.Consume(cl.request)), o);
    ConsumeRuns(w, cl);
    var c := Single(w2, Earn(EarnClaim.GatePass(cl.request)), o);
    GateRuns(spent, cl);
    Then(w, a, b, o);
    Then(w, a + b, c, o);
    steps := a + b + c;
  }

  // ----- A campaign and its views -----

  /** Advertiser 0, and viewer 1 whom the advertiser referred; the views of campaign 0 that are numbered below `n`. */
  ghost predicate Cast(w: World, n: nat) {
    && 0 in w.books.users && 1 in w.books.users && w.books.users[1].referrer == Some(0)
    && 0 in w.campaigns
    && (forall v: nat :: v < n ==> Key(v) in w.views && w.views[Key(v)] == 0)
  }

  /** Views `j..n` are open. */
  ghost predicate ViewsWait(w: World, j: nat, n: nat) {
    && Cast(w, n)
    && (forall v: nat :: j <= v < n ==>
          && v in w.campaigns[0].open
          && Key(v) in w.sessions && w.sessions[Key(v)] == EarnClaim.Session(1, "t", EarnClaim.Pending))
  }

  /** The key is of no view numbered `j` or above. */
  predicate KeyBelow(key: SessionKey, j: nat) {
    key.surface == PtcView ==> key.id < j
  }

  /** No row pays for view `j` or above, and nothing was refunded. */
  ghost predicate Unpaid(ledger: seq<LedgerRow>, j: nat) {
    forall row :: row in ledger ==> (row.ref.SessionRef? ==> KeyBelow(row.ref.key, j)) && row.reason != AdRefund
  }

  /** Requests, captchas and ledger rows for views `j` and above do not exist yet. */
  ghost predicate Untouched(w: World, j: nat) {
    && NamesBelow(w.requests, w.challenges, w.traces, j)
    && w.verifiers == map[]
    && Unpaid(w.books.ledger, j)
  }

  /** Views `j..n` are open, and no request has come for them. */
  ghost predicate Waiting(w: World, j: nat, n: nat) {
    ViewsWait(w, j, n) && Untouched(w, j)
  }

  /** The first `n` views were opened, and nothing else happened to the campaign. */
  ghost predicate Opened(w: World, o: Offer, n: nat) {
    && Waiting(w, 0, n)
    && w.campaigns[0] == AdBudget.Fresh(0, o.reward, o.views, o.rates, true).(open := w.campaigns[0].open)
    && (forall key :: key in w.sessions ==> KeyBelow(key, n))
  }

  /** Two users, and nothing else but the referral row. */
  ghost predicate TwoUsers(w: World) {
    && w == INIT.(books := w.books, lifetime := w.lifetime)
    && w.books == Book(map[0 := User(0, 0, 0, None), 1 := User(0, 0, 0, Some(0))], [])
  }

  lemma Registrations(o: Offer) returns (steps: seq<Step>)
    ensures Keeps(steps, o) && TwoUsers(Run(INIT, steps))
  {
    var a := Single(INIT, Register(0, None), o);
    var w := Run(INIT, a);
    assert w == INIT.(books := Book(map[0 := User(0, 0, 0, None)], []));
    var b := Single(w, Register(1, Some(0)), o);
    SecondUser(w);
    Then(INIT, a, b, o);
    steps := a + b;
  }

  lemma SecondUser(w: World)
    requires w == INIT.(books := Book(map[0 := User(0, 0, 0, None)], []))
    ensures TwoUsers(Next(w, Register(1, Some(0))))
  {
  }

  /** The advertiser's earlier claim, of what the campaign will cost. */
  function Savings(o: Offer): Claim {
    Claim(0, SessionKey(ShortlinkClick, 0), 0, "c", Price(o) * o.views)
  }

  /** The advertiser has started the session of that claim. */
  ghost predicate Saving(w: World, o: Offer) {
    && w == INIT.(books := w.books, lifetime := w.lifetime,
                  sessions := map[Savings(o).key := EarnClaim.Session(0, "t", EarnClaim.Pending)])
    && w.books == Book(map[0 := User(0, 0, 0, None), 1 := User(0, 0, 0, Some(0))], [])
  }

  lemma StartSaving(w: World, o: Offer) returns (steps: seq<Step>)
    requires TwoUsers(w)
    ensures Keeps(steps, o) && Saving(Run(w, steps), o)
  {
    steps := Single(w, Earn(EarnClaim.StartSession(Savings(o).key, 0, "t")), o);
  }

  lemma ClaimSavings(w: World, o: Offer) returns (steps: seq<Step>)
    requires Saving(w, o)
    ensures Keeps(steps, o) && Run(w, steps) == Approached(Solved(w, Savings(o)), Savings(o))
  {
    var a := Solve(w, Savings(o), o);
    var b := Enter(Solved(w, Savings(o)), Savings(o), o);
    Then(w, a, b, o);
    steps := a + b;
  }

  /** The advertiser has the price of the campaign, and no view was opened. */
  ghost predicate Funds(w: World, o: Offer) {
    && 0 in w.books.users && w.books.users[0].balance == Price(o) * o.views
    && 1 in w.books.users && w.books.users[1].referrer == Some(0)
    && w.campaigns == map[] && Untouched(w, 0)
    && (forall key :: key in w.sessions ==> KeyBelow(key, 0))
    && (forall row :: row in w.books.ledger ==> row.ref.SessionRef?)
  }

  /** The advertiser's claim is at its credit, and nothing else has happened. */
  ghost predicate AtSavings(w: World, o: Offer) {
    var cl := Savings(o);
    && w.books == Book(map[0 := User(0, 0, 0, None), 1 := User(0, 0, 0, Some(0))], [])
    && w.campaigns == map[] && w.views == map[] && w.verifiers == map[]
    && w.sessions == map[cl.key := EarnClaim.Session(0, "t", EarnClaim.Pending)]
    && w.requests == map[0 := EarnClaim.Request(cl.key, 0, cl.captcha, cl.reward, EarnClaim.AtCredit, false)]
    && w.challenges.Keys == {cl.captcha} && w.traces.Keys == {cl.captcha}
  }

  lemma ApproachedIsAtSavings(w: World, o: Offer)
    requires Saving(w, o)
    ensures AtSavings(Approached(Solved(w, Savings(o)), Savings(o)), o)
  {
  }

  /** What the advertiser's credit leaves. */
  function Saved(w: World, o: Offer): World {
    var cl := Savings(o);
    w.(sessions := map[cl.key := EarnClaim.Session(0, "t", EarnClaim.Verified)],
       requests := map[0 := EarnClaim.Request(cl.key, 0, cl.captcha, cl.reward, EarnClaim.Credited, true)],
       books := Book(map[0 := User(cl.reward, cl.reward, 0, None), 1 := User(0, 0, 0, Some(0))],
                     [LedgerRow(0, cl.reward, Reward(cl.key.surface), SessionRef(cl.key))]))
  }

  lemma SavingsArePaid(w: World, o: Offer)
    requires AtSavings(w, o)
    ensures Next(w, Earn(EarnClaim.Credit(0, EarnClaim.NoFault, o.rates))) == Saved(w, o)
  {
    SavingsCredit(EarnOf(w).db, Savings(o), o.rates);
    CreditStepIs(EarnOf(w), 0, o.rates);
    CreditRuns(w, 0, o.rates);
  }

  lemma SavedFunds(w: World, o: Offer)
    requires AtSavings(w, o)
    ensures Funds(Saved(w, o), o)
  {
  }

  /** Outside campaigns a credit is a step of earning. */
  lemma CreditRuns(w: World, r: nat, rates: Commission.Rates)
    requires r in w.requests && w.requests[r].key !in w.views
    ensures
      var step := EarnClaim.Credit(r, EarnClaim.NoFault, rates);
      Next(w, Earn(step)) == WithEarn(w, EarnClaim.Next(EarnOf(w), step))
  {
  }

  /** The credit of a user without referrer on an empty ledger. */
  lemma SavingsCredit(db: EarnClaim.Db, cl: Claim, rates: Commission.Rates)
    requires db.books == Book(map[0 := User(0, 0, 0, None), 1 := User(0, 0, 0, Some(0))], [])
    requires cl.key in db.sessions && db.sessions[cl.key].status == EarnClaim.Pending && cl.user == 0
    ensures
      EarnClaim.CreditTx(db, cl.key, 0, cl.reward, rates, false)
      == EarnClaim.Committed(db.(
           sessions := db.sessions[cl.key := db.sessions[cl.key].(status := EarnClaim.Verified)],
           books := Book(map[0 := User(cl.reward, cl.reward, 0, None), 1 := User(0, 0, 0, Some(0))],
                         [LedgerRow(0, cl.reward, Reward(cl.key.surface), SessionRef(cl.key))])))
  {
  }

  lemma Save(o: Offer) returns (steps: seq<Step>)
    ensures Keeps(steps, o) && Funds(Run(INIT, steps), o)
  {
    var a := Registrations(o);
    var b := StartSaving(Run(INIT, a), o);
    Then(INIT, a, b, o);
    var w := Run(INIT, a + b);
    var c := ClaimSavings(w, o);
    Then(INIT, a + b, c, o);
    var mid := Run(INIT, a + b + c);
    var d := Single(mid, Earn(EarnClaim.Credit(0, EarnClaim.NoFault, o.rates)), o);
    ApproachedIsAtSavings(w, o);
    SavingsArePaid(mid, o);
    SavedFunds(mid, o);
    Then(INIT, a + b + c, d, o);
    steps := a + b + c + d;
  }

  /** The advertiser earns the price of the campaign first, so that the balance read covers it. */
  lemma Setup(o: Offer) returns (steps: seq<Step>)
    ensures Keeps(steps, o) && Opened(Run(INIT, steps), o, 0)
  {
    var a := Save(o);
    var w := Run(INIT, a);
    var b := Single(w, Campaign(Funding(w, o)), o);
    FundedOpens(w, o);
    Then(INIT, a, b, o);
    steps := a + b;
  }

  /** The submission, with the balance as it stands. */
  function Funding(w: World, o: Offer): AdLedger.Step
    requires 0 in w.books.users
  {
    AdLedger.Fund(0, 0, w.books.users[0].balance, o.reward, o.views, o.rates, true)
  }

  lemma FundedOpens(w: World, o: Offer)
    requires Funds(w, o)
    ensures Opened(Next(w, Campaign(Funding(w, o))), o, 0)
  {
    forall i | 0 <= i < |w.books.ledger| ensures w.books.ledger[i].ref != AdRef(0) {
      assert w.books.ledger[i] in w.books.ledger;
    }
    assert IndexFree(w.books.ledger, AdFunding, AdRef(0));
  }

  lemma OpenViewIs(w: World, n: nat)
    requires MayOpen(w, 0, n, 1)
    ensures Next(w, OpenView(0, n, 1, "t"))
      == w.(campaigns := w.campaigns[0 := AdBudget.StartView(w.campaigns[0], n)],
            sessions := w.sessions[Key(n) := EarnClaim.Session(1, "t", EarnClaim.Pending)],
            views := w.views[Key(n) := 0])
  {
  }

  lemma OpenedNext(w: World, o: Offer, n: nat)
    requires Opened(w, o, n) && o.views > 0
    ensures Opened(Next(w, OpenView(0, n, 1, "t")), o, n + 1)
  {
    assert MayOpen(w, 0, n, 1);
    OpenViewIs(w, n);
  }

  lemma OpenMany(w: World, o: Offer, n: nat) returns (steps: seq<Step>)
    requires Opened(w, o, 0) && o.views > 0
    ensures Keeps(steps, o) && Opened(Run(w, steps), o, n)
  {
    ghost var stage := (s: World, j: nat) => Opened(s, o, j);
    forall s, j: nat | j < n && stage(s, j) ensures Advances(stage, s, j, o) {
      var last := Single(s, OpenView(0, j, 1, "t"), o);
      OpenedNext(s, o, j);
      assert stage(Run(s, last), j + 1);
    }
    steps := Iterate(stage, w, n, o);
  }

  // ----- One view reaches its credit -----

  /** View `j` is at its credit, and nothing refuses it. */
  ghost predicate AtCredit(w: World, j: nat, n: nat) {
    && Cast(w, n) && j < n && j in w.campaigns[0].open
    && j + 1 in w.requests
    && w.requests[j + 1]
      == EarnClaim.Request(Key(j), 1, Name(j), w.campaigns[0].ad.reward, EarnClaim.AtCredit, false)
    && Key(j) in w.sessions && w.sessions[Key(j)].status == EarnClaim.Pending
    && (forall row :: row in w.books.ledger ==> row.ref != SessionRef(Key(j)))
  }

  lemma NameIsNew(w: World, j: nat, reward: int)
    requires Untouched(w, j)
    ensures Unused(w, View(j, reward)) && j + 1 !in w.requests
  {
    assert |Name(j)| == j + 2;
  }

  /** The request of view `j` has passed its gates. */
  function ViewApproached(w: World, j: nat, reward: int): World {
    Approached(Solved(w, View(j, reward)), View(j, reward))
  }

  lemma Approach(w: World, o: Offer, j: nat, n: nat) returns (steps: seq<Step>)
    requires Waiting(w, j, n) && j < n
    ensures Keeps(steps, o) && Run(w, steps) == ViewApproached(w, j, w.campaigns[0].ad.reward)
  {
    var view := View(j, w.campaigns[0].ad.reward);
    NameIsNew(w, j, view.reward);
    var a := Solve(w, view, o);
    var b := Enter(Solved(w, view), view, o);
    Then(w, a, b, o);
    steps := a + b;
  }

  lemma ApproachedIsAtCredit(w: World, j: nat, n: nat)
    requires Waiting(w, j, n) && j < n
    ensures AtCredit(ViewApproached(w, j, w.campaigns[0].ad.reward), j, n)
  {
  }

  /** The credit of view `j`, with the budget as it stands. */
  function Completing(j: nat, o: Offer): Step {
    Complete(j + 1, EarnClaim.NoFault, o.rates, o.views - j)
  }

  /** A complete step whose credit commits, written out. */
  lemma CompleteIs(w: World, r: nat, rates: Commission.Rates, snapshot: int)
    requires MayComplete(w, r) && Commits(w, r, EarnClaim.NoFault, rates)
    ensures Next(w, Complete(r, EarnClaim.NoFault, rates, snapshot))
      == WithEarn(w, EarnClaim.Next(EarnOf(w), EarnClaim.Credit(r, EarnClaim.NoFault, rates))).(
           campaigns := w.campaigns[w.views[w.requests[r].key] :=
             AdBudget.Next(w.campaigns[w.views[w.requests[r].key]], HookStep(w, r, rates, snapshot))])
  {
  }

  lemma CreditStepIs(sys: EarnClaim.System, j: nat, rates: Commission.Rates)
    requires EarnClaim.At(sys, j, EarnClaim.AtCredit)
    requires var q := sys.requests[j]; EarnClaim.CreditTx(sys.db, q.key, q.user, q.reward, rates, false).Committed?
    ensures
      var q := sys.requests[j];
      EarnClaim.Next(sys, EarnClaim.Credit(j, EarnClaim.NoFault, rates))
      == sys.(db := EarnClaim.CreditTx(sys.db, q.key, q.user, q.reward, rates, false).db,
              requests := sys.requests[j := q.(pc := EarnClaim.Credited, credited := true)])
  {
  }

  /** What the credit of view `j` leaves behind. */
  ghost predicate Paid(w: World, w': World, o: Offer, j: nat) {
    && 0 in w.campaigns && j + 1 in w.requests && Key(j) in w.sessions && 1 in w.books.users && 1 in w'.books.users
    && w'.campaigns
      == w.campaigns[0 := AdBudget.Next(w.campaigns[0], AdBudget.CreditStep(j, o.views - j, true, o.rates))]
    && w'.requests == w.requests[j + 1 := w.requests[j + 1].(pc := EarnClaim.Credited, credited := true)]
    && w'.sessions == w.sessions[Key(j) := w.sessions[Key(j)].(status := EarnClaim.Verified)]
    && w'.views == w.views && w'.challenges == w.challenges && w'.verifiers == w.verifiers && w'.traces == w.traces
    && w'.books.users.Keys == w.books.users.Keys && w'.books.users[1].referrer == Some(0)
    && w'.books.ledger == w.books.ledger + EarnClaimLedger.CreditRows(EarnOf(w).db, Key(j), 1, o.reward, o.rates)
  }

  /** What the credit of view `j` does to earning. */
  lemma CreditEarns(sys: EarnClaim.System, j: nat, o: Offer)
    requires EarnClaim.At(sys, j + 1, EarnClaim.AtCredit)
    requires sys.requests[j + 1] == EarnClaim.Request(Key(j), 1, Name(j), o.reward, EarnClaim.AtCredit, false)
    requires EarnClaim.CreditTx(sys.db, Key(j), 1, o.reward, o.rates, false).Committed?
    ensures
      var db, sys' := sys.db, EarnClaim.Next(sys, EarnClaim.Credit(j + 1, EarnClaim.NoFault, o.rates));
      var books := sys'.db.books;
      && sys'.requests == sys.requests[j + 1 := sys.requests[j + 1].(pc := EarnClaim.Credited, credited := true)]
      && Key(j) in db.sessions && 1 in db.books.users
      && sys'.db.sessions == db.sessions[Key(j) := db.sessions[Key(j)].(status := EarnClaim.Verified)]
      && sys'.db.challenges == db.challenges && sys'.verifiers == sys.verifiers && sys'.traces == sys.traces
      && books.users.Keys == db.books.users.Keys && books.users[1].referrer == db.books.users[1].referrer
      && books.ledger == db.books.ledger + EarnClaimLedger.CreditRows(db, Key(j), 1, o.reward, o.rates)
  {
    EarnClaimLedger.CommittedCredit(sys.db, Key(j), 1, o.reward, o.rates, false);
    CreditLeavesChallenges(sys.db, Key(j), o.reward, o.rates);
    CreditStepIs(sys, j + 1, o.rates);
  }

  /** The credit commits, pays the viewer and the advertiser, and uses the budget. */
  lemma CreditPays(w: World, o: Offer, j: nat, n: nat)
    requires AtCredit(w, j, n) && w.campaigns[0].ad.reward == o.reward
    ensures Paid(w, Next(w, Completing(j, o)), o, j)
  {
    CreditIsReady(w, o, j, n);
    CreditEarns(EarnOf(w), j, o);
    CompleteIs(w, j + 1, o.rates, o.views - j);
  }

  lemma CreditIsReady(w: World, o: Offer, j: nat, n: nat)
    requires AtCredit(w, j, n) && w.campaigns[0].ad.reward == o.reward
    ensures MayComplete(w, j + 1) && Commits(w, j + 1, EarnClaim.NoFault, o.rates)
    ensures HookStep(w, j + 1, o.rates, o.views - j) == AdBudget.CreditStep(j, o.views - j, true, o.rates)
  {
    CreditCommits(EarnOf(w).db, Key(j), o.reward, o.rates);
  }

  lemma CompleteView(w: World, o: Offer, j: nat, n: nat) returns (steps: seq<Step>)
    requires AtCredit(w, j, n) && w.campaigns[0].ad.reward == o.reward
    ensures Keeps(steps, o) && Paid(w, Run(w, steps), o, j)
  {
    steps := Single(w, Completing(j, o), o);
    CreditPays(w, o, j, n);
  }

  lemma CreditLeavesChallenges(db: EarnClaim.Db, key: SessionKey, reward: nat, rates: Commission.Rates)
    ensures var out := EarnClaim.CreditTx(db, key, 1, reward, rates, false);
      out.Committed? ==> out.db.challenges == db.challenges
  {
  }

  lemma CreditCommits(db: EarnClaim.Db, key: SessionKey, reward: nat, rates: Commission.Rates)
    requires key in db.sessions && db.sessions[key].status == EarnClaim.Pending
    requires 0 in db.books.users && 1 in db.books.users && db.books.users[1].referrer == Some(0)
    requires forall row :: row in db.books.ledger ==> row.ref != SessionRef(key)
    ensures EarnClaim.CreditTx(db, key, 1, reward, rates, false).Committed?
  {
    forall reason ensures IndexFree(db.books.ledger, reason, SessionRef(key)) {
      forall i | 0 <= i < |db.books.ledger| ensures db.books.ledger[i].ref != SessionRef(key) {
        assert db.books.ledger[i] in db.books.ledger;
      }
    }
    var first := LedgerRow(1, reward, Reward(key.surface), SessionRef(key));
    IndexAppend(db.books.ledger, first, ReferralCommission, SessionRef(key));
  }

  // ----- Every view credited -----

  /** Of `n` opened views the first `j` were credited, each with a commission; none was returned. */
  ghost predicate Rushed(w: World, o: Offer, j: nat, n: nat) {
    && Waiting(w, j, n)
    && var c := w.campaigns[0];
    && c.ad.reward == o.reward && c.ad.purchased == o.views && c.ad.costPerView == Price(o)
    && c.credited == j && c.returned == 0 && c.paid == Most(o) * j
    && c.ad.viewsRemaining == o.views - j && c.overdrawn == Max(0, j - o.views)
  }

  lemma CreditOne(w: World, o: Offer, j: nat, n: nat) returns (steps: seq<Step>)
    requires Rushed(w, o, j, n) && j < n
    ensures Keeps(steps, o) && Rushed(Run(w, steps), o, j + 1, n)
  {
    var a := Approach(w, o, j, n);
    ApproachedIsAtCredit(w, j, n);
    var mid := ViewApproached(w, j, w.campaigns[0].ad.reward);
    var b := CompleteView(mid, o, j, n);
    Then(w, a, b, o);
    steps := a + b;
    RushedNext(w, Run(w, steps), o, j, n);
  }

  lemma RushedNext(w: World, end: World, o: Offer, j: nat, n: nat)
    requires Rushed(w, o, j, n) && j < n && Paid(ViewApproached(w, j, o.reward), end, o, j)
    ensures Rushed(end, o, j + 1, n)
  {
    CreditedViewsWait(w, end, o, j, n);
    CreditedUntouched(w, end, o, j);
    Arith.Distribute(Most(o), j, 1);
  }

  lemma CreditedViewsWait(w: World, end: World, o: Offer, j: nat, n: nat)
    requires ViewsWait(w, j, n) && j < n && Paid(ViewApproached(w, j, o.reward), end, o, j)
    ensures ViewsWait(end, j + 1, n)
  {
  }

  lemma CreditedUnpaid(ledger: seq<LedgerRow>, db: EarnClaim.Db, o: Offer, j: nat)
    requires Unpaid(ledger, j) && 1 in db.books.users
    ensures Unpaid(ledger + EarnClaimLedger.CreditRows(db, Key(j), 1, o.reward, o.rates), j + 1)
  {
  }

  /** Requests and captchas belong to views below `j`. */
  ghost predicate NamesBelow(
    requests: map<nat, EarnClaim.Request>, challenges: map<string, EarnClaim.Challenge>,
    traces: map<string, EarnClaim.Trace>,
    j: nat)
  {
    && (forall r :: r in requests ==> r <= j && |requests[r].challengeId| <= j + 1)
    && (forall c :: c in challenges || c in traces ==> |c| <= j + 1)
  }

  lemma CreditedNames(w: World, end: World, o: Offer, j: nat)
    requires NamesBelow(w.requests, w.challenges, w.traces, j) && Paid(ViewApproached(w, j, o.reward), end, o, j)
    ensures NamesBelow(end.requests, end.challenges, end.traces, j + 1)
  {
    assert |Name(j)| == j + 2;
  }

  lemma CreditedUntouched(w: World, end: World, o: Offer, j: nat)
    requires Untouched(w, j) && 1 in w.books.users && Paid(ViewApproached(w, j, o.reward), end, o, j)
    ensures Untouched(end, j + 1)
  {
    CreditedUnpaid(w.books.ledger, EarnOf(ViewApproached(w, j, o.reward)).db, o, j);
    CreditedNames(w, end, o, j);
  }

  lemma CreditMany(w: World, o: Offer, n: nat) returns (steps: seq<Step>)
    requires Rushed(w, o, 0, n)
    ensures Keeps(steps, o) && Rushed(Run(w, steps), o, n, n)
  {
    ghost var stage := (s: World, j: nat) => Rushed(s, o, j, n);
    forall s, j: nat | j < n && stage(s, j) ensures Advances(stage, s, j, o) {
      var last := CreditOne(s, o, j, n);
      assert stage(Run(s, last), j + 1);
    }
    steps := Iterate(stage, w, n, o);
  }

  /** All of `n` views are opened while the budget lasts, and then all are credited. */
  lemma Rush(o: Offer, n: nat) returns (steps: seq<Step>)
    requires o.views > 0
    ensures Keeps(steps, o) && Rushed(Run(INIT, steps), o, n, n)
  {
    var a := Setup(o);
    var b := OpenMany(Run(INIT, a), o, n);
    Then(INIT, a, b, o);
    OpenedIsRushed(Run(INIT, a + b), o, n);
    var c := CreditMany(Run(INIT, a + b), o, n);
    Then(INIT, a + b, c, o);
    steps := a + b + c;
  }

  lemma OpenedIsRushed(w: World, o: Offer, n: nat)
    requires Opened(w, o, n)
    ensures Rushed(w, o, 0, n)
  {
  }

  // ----- Rejected while a view is open -----

  /** The campaign was rejected with all its views, and one of them was credited all the same. */
  ghost predicate RejectedMidView(w: World, o: Offer) {
    && 0 in w.campaigns
    && var c := w.campaigns[0];
    && c.ad.purchased == o.views && c.ad.costPerView == Price(o)
    && c.returned == o.views && c.overdrawn == 1 && c.paid == Most(o)
  }

  lemma RejectRuns(w: World, o: Offer)
    requires AtCredit(w, 0, 1) && AdBudget.Rejectable(w.campaigns[0]) && w.campaigns[0].owner == 0
    requires forall row :: row in w.books.ledger ==> row.reason != AdRefund
    ensures
      var w' := Next(w, Campaign(AdLedger.RejectAd(0)));
      && AtCredit(w', 0, 1) && w'.campaigns[0] == AdBudget.Reject(w.campaigns[0])
  {
    forall i | 0 <= i < |w.books.ledger| ensures w.books.ledger[i].reason != AdRefund {
      assert w.books.ledger[i] in w.books.ledger;
    }
    assert IndexFree(w.books.ledger, AdRefund, AdRef(0));
  }

  lemma RejectView(w: World, o: Offer) returns (steps: seq<Step>)
    requires AtCredit(w, 0, 1) && AdBudget.Rejectable(w.campaigns[0]) && w.campaigns[0].owner == 0
    requires forall row :: row in w.books.ledger ==> row.reason != AdRefund
    ensures Keeps(steps, o) && AtCredit(Run(w, steps), 0, 1)
    ensures Run(w, steps).campaigns[0] == AdBudget.Reject(w.campaigns[0])
  {
    steps := Single(w, Campaign(AdLedger.RejectAd(0)), o);
    RejectRuns(w, o);
  }

  lemma RejectAndCredit(w: World, o: Offer) returns (steps: seq<Step>)
    requires AtCredit(w, 0, 1) && o.views > 0
    requires w.campaigns[0] == AdBudget.Fresh(0, o.reward, o.views, o.rates, true).(open := w.campaigns[0].open)
    requires forall row :: row in w.books.ledger ==> row.reason != AdRefund
    ensures Keeps(steps, o) && RejectedMidView(Run(w, steps), o)
  {
    var a := RejectView(w, o);
    var b := CompleteView(Run(w, a), o, 0, 1);
    Then(w, a, b, o);
    steps := a + b;
    PaidAfterReject(w, Run(w, a), Run(w, steps), o);
  }

  lemma PaidAfterReject(w: World, mid: World, end: World, o: Offer)
    requires 0 in w.campaigns && 0 in w.campaigns[0].open && o.views > 0
    requires w.campaigns[0] == AdBudget.Fresh(0, o.reward, o.views, o.rates, true).(open := w.campaigns[0].open)
    requires 0 in mid.campaigns && mid.campaigns[0] == AdBudget.Reject(w.campaigns[0]) && Paid(mid, end, o, 0)
    ensures RejectedMidView(end, o)
  {
  }

  lemma RejectMidView(o: Offer) returns (steps: seq<Step>)
    requires o.views > 0
    ensures Keeps(steps, o) && RejectedMidView(Run(INIT, steps), o)
  {
    var a := OneAtCredit(o);
    var b := RejectAndCredit(Run(INIT, a), o);
    Then(INIT, a, b, o);
    steps := a + b;
  }

  /** One view of a fresh campaign reaches its credit. */
  lemma OneAtCredit(o: Offer) returns (steps: seq<Step>)
    requires o.views > 0
    ensures Keeps(steps, o) && AtCredit(Run(INIT, steps), 0, 1)
    ensures
      var w := Run(INIT, steps);
      && w.campaigns[0] == AdBudget.Fresh(0, o.reward, o.views, o.rates, true).(open := w.campaigns[0].open)
      && forall row :: row in w.books.ledger ==> row.reason != AdRefund
  {
    var a := Setup(o);
    var b := OpenMany(Run(INIT, a), o, 1);
    Then(INIT, a, b, o);
    var w := Run(INIT, a + b);
    var c := Approach(w, o, 0, 1);
    ApproachedIsAtCredit(w, 0, 1);
    Then(INIT, a + b, c, o);
    steps := a + b + c;
  }

  // ----- Exactly when the money suffices -----

  /** A run on these terms with at most `k` views of campaign `id` credited from an empty budget. */
  ghost predicate Allowed(steps: seq<Step>, id: nat, o: Offer, k: nat) {
    Keeps(steps, o) && id in Run(INIT, steps).campaigns && Run(INIT, steps).campaigns[id].overdrawn <= k
  }

  lemma MarginSuffices(steps: seq<Step>, id: nat, o: Offer, k: nat)
    requires Price(o) >= 0 && Most(o) * k <= (Price(o) - Most(o)) * o.views
    requires Allowed(steps, id, o, k) && Run(INIT, steps).campaigns[id].returned == 0
    ensures WithinFunding(Run(INIT, steps), id)
  {
    LedgerIsCounters(steps, id, o);
    MarginKeepsSolvent(Run(INIT, steps).campaigns[id], o, k);
  }

  lemma MarginKeepsSolvent(c: AdBudget.Campaign, o: Offer, k: nat)
    requires OnTerms(c, o) && c.overdrawn <= k && c.returned == 0 && Most(o) * k <= (Price(o) - Most(o)) * o.views
    ensures AdBudget.Solvent(c)
  {
    Arith.Distribute(Most(o), o.views, k);
    Arith.DistributeRight(Price(o), Most(o), o.views);
    Arith.MulMono(c.credited, o.views + k, Most(o));
  }

  lemma RushExceeds(o: Offer, k: nat) returns (steps: seq<Step>)
    requires Price(o) >= 0 && o.views > 0 && Most(o) * k > (Price(o) - Most(o)) * o.views
    ensures Allowed(steps, 0, o, k) && Run(INIT, steps).campaigns[0].returned == 0
      && !WithinFunding(Run(INIT, steps), 0)
  {
    steps := Rush(o, o.views + k);
    LedgerIsCounters(steps, 0, o);
    Arith.Distribute(Most(o), o.views, k);
    Arith.DistributeRight(Price(o), Most(o), o.views);
  }

  /**
   * Campaigns that return no view: in all runs of the platform with at most `k` overdrawn
   * views the ledger stays within the funding exactly when `k` of the largest payouts fit
   * into the margin of price over payout on the views bought.
   */
  lemma WithinFundingIffMarginCovers(o: Offer, k: nat)
    requires Price(o) >= 0 && o.views > 0
    ensures
      (forall steps, id :: Allowed(steps, id, o, k) && Run(INIT, steps).campaigns[id].returned == 0
        ==> WithinFunding(Run(INIT, steps), id))
      <==> Most(o) * k <= (Price(o) - Most(o)) * o.views
  {
    if Most(o) * k <= (Price(o) - Most(o)) * o.views {
      forall steps, id | Allowed(steps, id, o, k) && Run(INIT, steps).campaigns[id].returned == 0
        ensures WithinFunding(Run(INIT, steps), id)
      {
        MarginSuffices(steps, id, o, k);
      }
    } else {
      var steps := RushExceeds(o, k);
    }
  }

  /** The ledger pays 220 for the views of a campaign that was charged 125. */
  ghost predicate PaysTwice(steps: seq<Step>) {
    var w := Run(INIT, steps);
    WorldViews.PaidFor(w.books.ledger, w.views, 0) == 220 && RefTotal(w.books.ledger, AdRef(0)) == -125
  }

  /** One bought view at 100 satoshi, 25 percent platform share and 10 percent commission. */
  lemma LastViewPaidTwice()
    ensures exists steps :: PaysTwice(steps)
  {
    var o := Offer(100, 1, Commission.Rates(10, 25));
    var steps := Rush(o, 2);
    LedgerIsCounters(steps, 0, o);
    assert PaysTwice(steps);
  }

  lemma NoneOverdrawnSuffices(c: AdBudget.Campaign, o: Offer)
    requires OnTerms(c, o) && Most(o) <= Price(o) && (c.overdrawn == 0 || o.reward == 0)
    ensures AdBudget.Solvent(c)
  {
    AdBudget.OutflowBound(c, Most(o));
    assert Most(o) * c.overdrawn == 0;
  }

  /**
   * With rejections: in all runs of the platform with at most `k` overdrawn views the ledger
   * stays within the funding exactly when the price covers the largest payout, and `k` is zero
   * or views pay nothing.
   */
  lemma WithinFundingIffNeverOverdrawn(o: Offer, k: nat)
    requires Price(o) >= 0 && o.views > 0
    ensures (forall steps, id :: Allowed(steps, id, o, k) ==> WithinFunding(Run(INIT, steps), id))
      <==> Most(o) <= Price(o) && (k == 0 || o.reward == 0)
  {
    if Most(o) <= Price(o) && (k == 0 || o.reward == 0) {
      forall steps, id | Allowed(steps, id, o, k) ensures WithinFunding(Run(INIT, steps), id) {
        LedgerIsCounters(steps, id, o);
        NoneOverdrawnSuffices(Run(INIT, steps).campaigns[id], o);
      }
    } else if Most(o) > Price(o) {
      Arith.MulMono(Price(o) - Most(o), -1, o.views);
      var steps := RushExceeds(o, 0);
      assert Allowed(steps, 0, o, k) && !WithinFunding(Run(INIT, steps), 0);
    } else {
      var steps := RejectMidView(o);
      LedgerIsCounters(steps, 0, o);
      assert Allowed(steps, 0, o, k) && !WithinFunding(Run(INIT, steps), 0);
    }
  }
}
