/** Whom a campaign's views pay: nobody before its approval, and never its owner. */
module WorldViewers {
  import opened Common
  import opened Books
  import opened World
  import opened WorldAreas
  import EarnClaim
  import EarnClaimLedger
  import AdBudget
  import AdLedger
  import WorldViews

  // ----- Sessions keep their users -----

  lemma EarnStepKeepsUsers(sys: EarnClaim.System, step: EarnClaim.Step, key: SessionKey)
    requires key in sys.db.sessions
    ensures
      var after := EarnClaim.Next(sys, step).db.sessions;
      key in after && after[key].user == sys.db.sessions[key].user
  {
    EarnClaimLedger.StepAdvancesSessions(sys, step);
  }

  lemma {:induction false} EarnRunKeepsUsers(sys: EarnClaim.System, steps: seq<EarnClaim.Step>, key: SessionKey)
    requires key in sys.db.sessions
    ensures
      var after := EarnClaim.Run(sys, steps).db.sessions;
      key in after && after[key].user == sys.db.sessions[key].user
    decreases |steps|
  {
    if steps != [] {
      EarnStepKeepsUsers(sys, steps[0], key);
      EarnRunKeepsUsers(EarnClaim.Next(sys, steps[0]), steps[1..], key);
    }
  }

  lemma SessionKeepsUser(w: World, step: Step, key: SessionKey)
    requires key in w.sessions
    ensures key in Next(w, step).sessions && Next(w, step).sessions[key].user == w.sessions[key].user
  {
    var own := EarnFollows(w, step);
    EarnRunKeepsUsers(EarnOf(w), own, key);
  }

  // ----- The viewer of a campaign is not its owner -----

  /** The session of the view is of another user than the campaign. */
  ghost predicate Apart(w: World, key: SessionKey)
    requires key in w.views
  {
    && key in w.sessions && w.views[key] in w.campaigns
    && w.sessions[key].user != w.campaigns[w.views[key]].owner
  }

  ghost predicate AllApart(w: World) {
    forall key :: key in w.views ==> Apart(w, key)
  }

  lemma OwnerStays(w: World, step: Step, id: nat)
    requires id in w.campaigns
    ensures id in Next(w, step).campaigns && Next(w, step).campaigns[id].owner == w.campaigns[id].owner
  {
    WorldViews.CampaignEvolves(w, step, id);
    var c, c' := w.campaigns[id], Next(w, step).campaigns[id];
    if c' != c { var s :| WorldViews.Changes(step, c, c', s); }
  }

  /** Only opening a view adds one, and it is another user who opens it. */
  lemma NewViews(w: World, step: Step, key: SessionKey)
    requires AllApart(w) && key in Next(w, step).views
    ensures
      if key in w.views then Next(w, step).views[key] == w.views[key]
      else
        && step.OpenView? && MayOpen(w, step.id, step.view, step.viewer) && key == Key(step.view)
        && Next(w, step).views[key] == step.id
  {
    if step.OpenView? && MayOpen(w, step.id, step.view, step.viewer) {
      OpenedView(w, step.id, step.view, step.viewer, step.token);
      assert Key(step.view) !in w.views;
    } else {
      OtherStepsOpenNone(w, step);
    }
  }

  lemma OpenedView(w: World, id: nat, view: nat, viewer: nat, token: string)
    requires MayOpen(w, id, view, viewer)
    ensures Next(w, OpenView(id, view, viewer, token)).views == w.views[Key(view) := id]
  {
  }

  lemma OtherStepsOpenNone(w: World, step: Step)
    requires !(step.OpenView? && MayOpen(w, step.id, step.view, step.viewer))
    ensures Next(w, step).views == w.views
  {
  }

  lemma OpenedApart(w: World, id: nat, view: nat, viewer: nat, token: string)
    requires MayOpen(w, id, view, viewer)
    ensures
      var w' := Next(w, OpenView(id, view, viewer, token));
      && Key(view) in w'.sessions && w'.sessions[Key(view)].user == viewer
      && id in w'.campaigns && w'.campaigns[id].owner != viewer
  {
  }

  lemma StepKeepsApart(w: World, step: Step)
    requires AllApart(w)
    ensures AllApart(Next(w, step))
  {
    forall key | key in Next(w, step).views ensures Apart(Next(w, step), key) {
      NewViews(w, step, key);
      if key in w.views {
        assert Apart(w, key);
        SessionKeepsUser(w, step, key);
        OwnerStays(w, step, w.views[key]);
      } else {
        OpenedApart(w, step.id, step.view, step.viewer, step.token);
      }
    }
  }

  lemma {:induction false} RunKeepsApart(w: World, steps: seq<Step>)
    requires AllApart(w)
    ensures AllApart(Run(w, steps))
    decreases |steps|
  {
    if steps != [] {
      StepKeepsApart(w, steps[0]);
      RunKeepsApart(Next(w, steps[0]), steps[1..]);
    }
  }

  /** In every run of the platform, no reward for a view of a campaign goes to the campaign's owner. */
  lemma OwnersEarnNoReward(steps: seq<Step>, row: LedgerRow)
    requires var w := Run(INIT, steps);
      row in w.books.ledger && row.reason.Reward? && row.ref.SessionRef? && row.ref.key in w.views
    ensures var w := Run(INIT, steps);
      w.views[row.ref.key] in w.campaigns && row.user != w.campaigns[w.views[row.ref.key]].owner
  {
    var w := Run(INIT, steps);
    RunKeepsApart(INIT, steps);
    WorldViews.RunKeepsViews(INIT, steps);
    assert Apart(w, row.ref.key);
    assert EarnClaimLedger.RowSettled(EarnOf(w).db, row);
  }

  // ----- Nothing is shown before it is approved -----

  /** Nobody approves the campaign, and it is not submitted where submissions are approved at once. */
  predicate Withholds(step: Step, id: nat) {
    && step != Campaign(AdLedger.Change(id, AdBudget.ApproveStep))
    && (step.Campaign? && step.ad.Fund? && step.ad.id == id ==> !step.ad.autoApprove)
  }

  /** The campaign has shown nothing and paid nothing, and waits or was rejected. */
  ghost predicate NotShown(w: World, id: nat) {
    && (forall key :: key in w.views ==> w.views[key] != id)
    && (id in w.campaigns ==>
          var c := w.campaigns[id];
          c.ad.status in {AdBudget.PendingReview, AdBudget.Rejected} && c.open == {} && c.paid == 0)
  }

  lemma CampaignNotShown(w: World, ad: AdLedger.Step, id: nat)
    requires NotShown(w, id) && Withholds(Campaign(ad), id) && MayAdvertise(ad)
    ensures NotShown(Next(w, Campaign(ad)), id)
  {
  }

  lemma ViewNotShown(w: World, step: Step, id: nat)
    requires NotShown(w, id) && Earns(step)
    ensures NotShown(Next(w, step), id)
  {
    if step.OpenView? && MayOpen(w, step.id, step.view, step.viewer) {
      OpenedView(w, step.id, step.view, step.viewer, step.token);
      OtherViewOpens(w, step, id);
    } else {
      OtherStepsOpenNone(w, step);
      OtherCampaignPays(w, step, id);
    }
  }

  /** A campaign that waits or was rejected is not the one whose view opens. */
  lemma OtherViewOpens(w: World, step: Step, id: nat)
    requires NotShown(w, id) && step.OpenView? && MayOpen(w, step.id, step.view, step.viewer)
    ensures step.id != id
    ensures Next(w, step).campaigns == w.campaigns[step.id := AdBudget.StartView(w.campaigns[step.id], step.view)]
  {
  }

  /** A credit is for a campaign that has views. */
  lemma OtherCampaignPays(w: World, step: Step, id: nat)
    requires NotShown(w, id) && Earns(step)
    requires !(step.OpenView? && MayOpen(w, step.id, step.view, step.viewer))
    ensures id in Next(w, step).campaigns <==> id in w.campaigns
    ensures id in w.campaigns ==> Next(w, step).campaigns[id] == w.campaigns[id]
  {
    if step.Complete? && MayComplete(w, step.request) { assert w.views[w.requests[step.request].key] != id; }
  }

  lemma StepShowsNothing(w: World, step: Step, id: nat)
    requires NotShown(w, id) && Withholds(step, id)
    ensures NotShown(Next(w, step), id)
  {
    if step.Campaign? {
      if MayAdvertise(step.ad) { CampaignNotShown(w, step.ad, id); }
    } else if Earns(step) {
      ViewNotShown(w, step, id);
    } else {
      WorldViews.OtherStepsKeepCampaigns(w, step);
    }
  }

  lemma {:induction false} RunShowsNothing(w: World, steps: seq<Step>, id: nat)
    requires NotShown(w, id) && forall step :: step in steps ==> Withholds(step, id)
    ensures NotShown(Run(w, steps), id)
    decreases |steps|
  {
    if steps != [] {
      assert steps[0] in steps;
      StepShowsNothing(w, steps[0], id);
      RunShowsNothing(Next(w, steps[0]), steps[1..], id);
    }
  }

  /** In every run in which a campaign is not approved it opens no view, and the ledger pays nothing for it. */
  lemma ApprovedBeforeShown(steps: seq<Step>, id: nat)
    requires forall step :: step in steps ==> Withholds(step, id)
    ensures
      var w := Run(INIT, steps);
      && (forall key :: key in w.views ==> w.views[key] != id)
      && WorldViews.PaidFor(w.books.ledger, w.views, id) == 0
  {
    RunShowsNothing(INIT, steps, id);
    var w := Run(INIT, steps);
    WorldViews.NoViewsNoPay(w.books.ledger, w.views, id);
  }
}
