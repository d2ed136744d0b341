/** The claim handler as its comments describe it, with the three defects of the code as
    written corrected:
    - the tier bonus is chosen by comparing maturity with `staked_at` plus each tier's
      length, instead of through irrefutable patterns that always pick 180%;
    - the bonus is paid only when no claim happened before, as the comment on the check
      says; a later claim after earlier ones pays the day-based reward up to maturity;
    - `claim_balance` is not decremented, so an early claim with a positive reward pays
      it instead of aborting on an unsigned underflow.
    The arithmetic is exact; the i64 aborts of the code as written are not repeated.

    It also holds `pause` and `un_pause` with the admin check their error kind
    `Unauthorized` stands for: only the signer recorded as admin may switch the program. */
module Intended {
  import opened Ints
  import opened Staking

  /** The bonus each tier promises at maturity, in percent of the staked balance. */
  function TierBonusPercent(tier: StakeTime): nat
  {
    match tier
    case OneHundredDays => BONUS_100_DAYS_PERCENT
    case OneHundredAndEightyDays => BONUS_180_DAYS_PERCENT
    case ThreeHundredAndSixtyDays => BONUS_360_DAYS_PERCENT
  }

  /** The day-based reward for the whole days between the last claim and `now`, but no
      later than maturity. */
  function CappedDayReward(info: StakeInfo, now: int): u64
  {
    var end := if now > info.stakeTime then info.stakeTime else now;
    DayReward(TruncDiv(end - info.lastClaimAt, ONE_DAY_IN_UNIX), info.stakeBalance)
  }

  /** What a claim pays: the tier bonus when the first claim comes at or after maturity,
      otherwise the capped day-based reward. */
  function Payout(info: StakeInfo, now: int): u64
  {
    var balance := info.stakeBalance;
    if now >= info.stakeTime && info.lastClaimAt == info.stakedAt then
      if info.stakeTime == info.stakedAt + ONE_HUNDRED_DAYS_IN_UNIX then
        Percent(balance, BONUS_100_DAYS_PERCENT)
      else if info.stakeTime == info.stakedAt + ONE_HUNDRED_AND_EIGHTY_DAYS_IN_UNIX then
        Percent(balance, BONUS_180_DAYS_PERCENT)
      else if info.stakeTime == info.stakedAt + THREE_HUNDRED_AND_SIXTY_DAYS_IN_UNIX then
        Percent(balance, BONUS_360_DAYS_PERCENT)
      else
        CappedDayReward(info, now)
    else
      CappedDayReward(info, now)
  }

  /** The corrected `claim`: the same guards, the same bookkeeping of the claim time and
      the "fully claimed" flag, and the payout above. */
  function Claim(state: State, info: StakeInfo, now: i64): (r: Result<Receipt>)
    ensures state.paused ==> r == Err(ContractPaused)
    ensures !state.paused && info.hasClaimedAll ==> r == Err(HasClaimedAllReward)
    ensures r.Ok? <==> !state.paused && !info.hasClaimedAll
    ensures r.Ok? ==>
      && r.value.info == info.(lastClaimAt := now, hasClaimedAll := now >= info.stakeTime)
      && r.value.transfer == Transfer(ContractToUser, Payout(info, now))
    ensures Consistent(info) && r.Ok? ==> Consistent(r.value.info)
  {
    if state.paused then Err(ContractPaused)
    else if info.hasClaimedAll then Err(HasClaimedAllReward)
    else
      var info' := info.(lastClaimAt := now, hasClaimedAll := now >= info.stakeTime);
      Ok(Receipt(info', Transfer(ContractToUser, Payout(info, now))))
  }

  /** A first claim at or after maturity pays the bonus of the tier that was staked for:
      56%, 108% or 180% of the balance. */
  lemma FirstMatureClaimPaysTierBonus(
    state: State, prior: StakeInfo, t0: i64, amount: u64, tier: StakeTime, now: i64)
    requires Stake(state, prior, t0, amount, tier).Ok?
    requires !state.paused
    requires now >= Stake(state, prior, t0, amount, tier).value.info.stakeTime
    ensures
      var info := Stake(state, prior, t0, amount, tier).value.info;
      Claim(state, info, now) ==
        Ok(Receipt(info.(lastClaimAt := now, hasClaimedAll := true),
                   Transfer(ContractToUser, Percent(info.stakeBalance, TierBonusPercent(tier)))))
  {
  }

  /** Before maturity the corrected claim never aborts: it pays the day-based reward for
      the whole days since the last claim. */
  lemma EarlyClaimPaysDayReward(state: State, info: StakeInfo, now: i64)
    requires !state.paused && !info.hasClaimedAll
    requires now < info.stakeTime
    ensures Claim(state, info, now).Ok?
    ensures Claim(state, info, now).value.transfer.amount ==
      DayReward(ElapsedDays(info, now), info.stakeBalance)
  {
  }

  /** After earlier claims, a claim at or after maturity pays only the whole days left up
      to maturity, and no bonus. */
  lemma LateClaimAfterEarlierClaims(state: State, info: StakeInfo, now: i64)
    requires !state.paused && !info.hasClaimedAll
    requires info.lastClaimAt != info.stakedAt
    requires now >= info.stakeTime
    ensures Claim(state, info, now).value.transfer.amount ==
      DayReward(TruncDiv(info.stakeTime - info.lastClaimAt, ONE_DAY_IN_UNIX), info.stakeBalance)
  {
  }

  /** Whole-day division never gains by splitting an interval. */
  lemma DivSuperadditive(a: int, b: int, d: int)
    requires a >= 0 && b >= 0 && d > 0
    ensures a / d + b / d <= (a + b) / d
  {
    var qa, qb := a / d, b / d;
    assert qa * d <= a && qb * d <= b;
    assert (qa + qb) * d <= a + b;
    var q := (a + b) / d;
    assert a + b < (q + 1) * d;
  }

  /** The day reward grows with the number of days. */
  lemma DayRewardMonotone(d: int, d': int, balance: u64)
    requires d <= d'
    ensures DayReward(d, balance) <= DayReward(d', balance)
  {
    if d > 0 {
      var x := d * REWARD_PER_DAY_PER_MILLE * balance;
      var x' := d' * REWARD_PER_DAY_PER_MILLE * balance;
      assert x' - x == (d' - d) * REWARD_PER_DAY_PER_MILLE * balance;
      assert x <= x';
      DivMonotone(x, x', 1000);
    }
  }

  lemma DivMonotone(a: int, b: int, d: int)
    requires a <= b && d > 0
    ensures a / d <= b / d
  {
    var qa, qb := a / d, b / d;
    assert qa * d <= a;
    assert b < qb * d + d;
    var p := qb + 1 - qa;
    assert p * d == (qb * d + d) - qa * d;
    assert p * d > 0;
    assert p > 0;
  }

  /** Two day rewards for consecutive periods never exceed the reward for the whole
      period, as long as that reward fits in a u64. */
  lemma DayRewardSuperadditive(d1: int, d2: int, balance: u64)
    requires d1 >= 0 && d2 >= 0
    requires (d1 + d2) * REWARD_PER_DAY_PER_MILLE * balance / 1000 <= U64_MAX
    ensures DayReward(d1, balance) + DayReward(d2, balance) <= DayReward(d1 + d2, balance)
  {
    var a := d1 * REWARD_PER_DAY_PER_MILLE * balance;
    var b := d2 * REWARD_PER_DAY_PER_MILLE * balance;
    assert a >= 0 && b >= 0;
    assert (d1 + d2) * REWARD_PER_DAY_PER_MILLE * balance == a + b;
    DivSuperadditive(a, b, 1000);
    DivMonotone(a, a + b, 1000);
    DivMonotone(b, a + b, 1000);
  }

  /** Whole days of two consecutive periods, rewarded separately, never earn more than
      the whole days of the joined period, as long as that reward fits in a u64. */
  lemma SplitPeriodsEarnNoMore(a: int, b: int, balance: u64)
    requires a >= 0 && b >= 0
    requires (a + b) / ONE_DAY_IN_UNIX * REWARD_PER_DAY_PER_MILLE * balance / 1000 <= U64_MAX
    ensures DayReward(a / ONE_DAY_IN_UNIX, balance) + DayReward(b / ONE_DAY_IN_UNIX, balance)
         <= DayReward((a + b) / ONE_DAY_IN_UNIX, balance)
  {
    var d1, d2, d := a / ONE_DAY_IN_UNIX, b / ONE_DAY_IN_UNIX, (a + b) / ONE_DAY_IN_UNIX;
    DivSuperadditive(a, b, ONE_DAY_IN_UNIX);
    assert d1 >= 0 && d2 >= 0 && d1 + d2 <= d;
    var k := REWARD_PER_DAY_PER_MILLE * balance;
    assert k >= 0;
    assert (d1 + d2) * k <= d * k;
    assert (d1 + d2) * REWARD_PER_DAY_PER_MILLE * balance == (d1 + d2) * k;
    assert d * REWARD_PER_DAY_PER_MILLE * balance == d * k;
    DivMonotone((d1 + d2) * k, d * k, 1000);
    DayRewardSuperadditive(d1, d2, balance);
    DayRewardMonotone(d1 + d2, d, balance);
  }

  /** Splitting a period before maturity into two claims never pays more than claiming
      once at the end of it: fractions of a day dropped by the first claim are lost, not
      paid twice. */
  lemma SplitClaimsPayNoMore(state: State, info: StakeInfo, t1: i64, t2: i64)
    requires !state.paused && !info.hasClaimedAll
    requires info.lastClaimAt <= t1 <= t2 < info.stakeTime
    requires ElapsedDays(info, t2) * REWARD_PER_DAY_PER_MILLE * info.stakeBalance / 1000 <= U64_MAX
    ensures
      var first := Claim(state, info, t1).value;
      var second := Claim(state, first.info, t2).value;
      first.transfer.amount + second.transfer.amount <= Claim(state, info, t2).value.transfer.amount
  {
    EarlyClaimPaysDayReward(state, info, t1);
    var first := Claim(state, info, t1).value;
    assert first.info.lastClaimAt == t1 && !first.info.hasClaimedAll;
    assert first.info.stakeTime == info.stakeTime && first.info.stakeBalance == info.stakeBalance;
    EarlyClaimPaysDayReward(state, first.info, t2);
    EarlyClaimPaysDayReward(state, info, t2);
    var a, b := t1 - info.lastClaimAt, t2 - t1;
    assert ElapsedDays(info, t1) == a / ONE_DAY_IN_UNIX;
    assert ElapsedDays(first.info, t2) == b / ONE_DAY_IN_UNIX;
    assert ElapsedDays(info, t2) == (a + b) / ONE_DAY_IN_UNIX;
    SplitPeriodsEarnNoMore(a, b, info.stakeBalance);
  }

  /** The corrected `pause`: refuse when already paused, then refuse any signer other
      than the recorded admin. */
  function Pause(state: State, signer: Pubkey): (r: Result<State>)
    ensures state.paused ==> r == Err(ContractPaused)
    ensures !state.paused && signer != state.admin ==> r == Err(Unauthorized)
    ensures r.Ok? <==> !state.paused && signer == state.admin
    ensures r.Ok? ==> r.value.admin == state.admin && r.value.paused
  {
    if state.paused then Err(ContractPaused)
    else if signer != state.admin then Err(Unauthorized)
    else Ok(state.(paused := true))
  }

  /** The corrected `un_pause`: refuse when not paused, then refuse any signer other
      than the recorded admin. */
  function UnPause(state: State, signer: Pubkey): (r: Result<State>)
    ensures !state.paused ==> r == Err(ContractNotPaused)
    ensures state.paused && signer != state.admin ==> r == Err(Unauthorized)
    ensures r.Ok? <==> state.paused && signer == state.admin
    ensures r.Ok? ==> r.value.admin == state.admin && !r.value.paused
  {
    if !state.paused then Err(ContractNotPaused)
    else if signer != state.admin then Err(Unauthorized)
    else Ok(state.(paused := false))
  }

  /** Only the admin switches the program: the admin gets exactly what the code as
      written gives, and any other signer is refused with `Unauthorized` wherever the
      code as written would have switched. */
  lemma AdminOnlyPause(state: State, signer: Pubkey)
    ensures signer == state.admin ==>
      Pause(state, signer) == Staking.Pause(state, signer) &&
      UnPause(state, signer) == Staking.UnPause(state, signer)
    ensures signer != state.admin && Staking.Pause(state, signer).Ok? ==>
      Pause(state, signer) == Err(Unauthorized)
    ensures signer != state.admin && Staking.UnPause(state, signer).Ok? ==>
      UnPause(state, signer) == Err(Unauthorized)
    ensures signer != state.admin ==> Pause(state, signer).Err? && UnPause(state, signer).Err?
  {
  }
}
