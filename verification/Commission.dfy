/**
 * Percentages of app/Services/ReferralPayout.php and AdvertiseController::computeCost:
 * what a credited view pays out, and what its advertiser was charged for it.
 */
module Commission {
  import opened Common

  /** The two percentages the services read from the configuration. */
  datatype Rates = Rates(referralPct: int, platformPct: int)

  /** The percentage actually paid: the referral rate, capped by the platform's own share. */
  function EffectivePct(rates: Rates): int {
    Min(Max(0, rates.referralPct), Max(0, rates.platformPct))
  }

  /** Satoshi paid to the referrer for one reward; zero means that nothing is written. */
  function Of(reward: int, rates: Rates): (commission: nat)
  {
    if reward <= 0 || EffectivePct(rates) <= 0 then 0
    else reward * EffectivePct(rates) / 100
  }

  /** Ceiling division by 100, the rounding of `ceil(x / 100)`. */
  function CeilHundredth(x: int): int {
    -((-x) / 100)
  }

  /** What an advertiser is charged for one view. */
  function CostPerView(reward: int, rates: Rates): int {
    CeilHundredth(reward * (100 + rates.platformPct))
  }

  /**
   * A charge made at one configuration covers reward and commission at another, as long as
   * the percentage paid out has not grown beyond the one charged.
   */
  lemma CostCoversLaterPayout(reward: nat, charged: Rates, rates: Rates)
    requires charged.platformPct >= 0 && EffectivePct(rates) <= charged.platformPct
    ensures reward + Of(reward, rates) <= CostPerView(reward, charged)
  {
    var e, p := EffectivePct(rates), charged.platformPct;
    assert reward * e <= reward * p;
    assert reward * (100 + p) == reward * 100 + reward * p;
    if reward > 0 && e > 0 {
      assert Of(reward, rates) * 100 <= reward * p;
    }
  }

  /** The charge for a view covers the viewer's reward and the referrer's share together. */
  lemma CostCoversPayout(reward: nat, rates: Rates)
    requires rates.platformPct >= 0
    ensures reward + Of(reward, rates) <= CostPerView(reward, rates)
  {
    CostCoversLaterPayout(reward, rates, rates);
  }

  /**
   * The funding rule holds for every reward exactly when the platform's percentage is
   * not negative: nothing in the code clamps it when the price is computed.
   */
  lemma CostCoversPayoutIff(rates: Rates)
    ensures (forall reward: nat :: reward + Of(reward, rates) <= CostPerView(reward, rates))
        <==> rates.platformPct >= 0
  {
    if rates.platformPct >= 0 {
      forall reward: nat ensures reward + Of(reward, rates) <= CostPerView(reward, rates) {
        CostCoversPayout(reward, rates);
      }
    } else {
      var reward: nat := 100;
      assert reward * (100 + rates.platformPct) == 100 * (100 + rates.platformPct);
      assert CostPerView(reward, rates) == 100 + rates.platformPct;
      assert !(reward + Of(reward, rates) <= CostPerView(reward, rates));
    }
  }

  /** The price is the smallest whole amount that is no less than the marked-up reward. */
  lemma PriceIsSmallest(reward: int, rates: Rates, amount: int)
    ensures 100 * amount >= reward * (100 + rates.platformPct) <==> amount >= CostPerView(reward, rates)
  {
  }

  /** There is a commission exactly when both percentages are positive and their share makes a satoshi. */
  lemma CommissionIff(reward: int, rates: Rates)
    ensures Of(reward, rates) > 0 <==>
      rates.referralPct > 0 && rates.platformPct > 0 && reward * Min(rates.referralPct, rates.platformPct) >= 100
  {
    var e := Min(rates.referralPct, rates.platformPct);
    if e > 0 && reward <= 0 { assert reward * e <= 0; }
  }

  /**
   * The commission is the largest whole number of satoshi within the capped percentage
   * of the reward, so it never exceeds the slice the platform itself collected.
   */
  lemma CommissionIsCapped(reward: nat, rates: Rates)
    requires rates.referralPct >= 0 && rates.platformPct >= 0
    ensures 100 * Of(reward, rates) <= reward * rates.referralPct
    ensures 100 * Of(reward, rates) <= reward * rates.platformPct
    ensures 100 * (Of(reward, rates) + 1) > reward * Min(rates.referralPct, rates.platformPct)
  {
    var e := EffectivePct(rates);
    assert e == Min(rates.referralPct, rates.platformPct);
    assert reward * e <= reward * rates.referralPct;
    assert reward * e <= reward * rates.platformPct;
    if reward == 0 || e == 0 { assert reward * e == 0; }
  }
}
