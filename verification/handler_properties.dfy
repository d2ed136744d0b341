/** Facts about single instructions of the staking program: the lock tiers, what a claim
    pays before and after maturity, when a claim aborts, and the pause switch. */
module HandlerProperties {
  import opened Ints
  import opened Staking

  /** The three tiers lock a stake for 100, 180 and 360 days of 86 400 seconds, so a
      successful `stake` always puts maturity strictly after the stake time. */
  lemma StakeSetsMaturity(state: State, info: StakeInfo, now: i64, amount: u64, tier: StakeTime)
    requires Stake(state, info, now, amount, tier).Ok?
    ensures
      var s := Stake(state, info, now, amount, tier).value.info;
      && s.stakeTime - s.stakedAt == (match tier
                                       case OneHundredDays => 8_640_000
                                       case OneHundredAndEightyDays => 15_552_000
                                       case ThreeHundredAndSixtyDays => 31_104_000)
      && s.stakeTime > s.stakedAt
  {
  }

  /** Whatever the account held before, `stake` succeeds exactly when the program is not
      paused and neither the new balance nor the maturity overflows; it keeps the earlier
      principal, adds the new one, and starts the account over as an unclaimed stake. */
  lemma RestakeAddsToPrincipal(state: State, info: StakeInfo, now: i64, amount: u64, tier: StakeTime)
    requires !state.paused
    requires info.stakeBalance + amount <= U64_MAX
    requires now + LockDuration(tier) <= I64_MAX
    ensures Stake(state, info, now, amount, tier).Ok?
    ensures
      var s := Stake(state, info, now, amount, tier).value.info;
      && s.stakeBalance - info.stakeBalance == amount
      && !s.hasClaimedAll && s.claimBalance == 0
      && s.lastClaimAt == s.stakedAt == now
  {
  }

  /** A successful claim keeps a consistent account consistent: `claim_balance` stays
      zero and "fully claimed" still coincides with "last claim at or after maturity". */
  lemma ClaimKeepsConsistent(state: State, info: StakeInfo, now: i64)
    requires Consistent(info)
    requires Claim(state, info, now).Ok?
    ensures Consistent(Claim(state, info, now).value.info)
  {
  }

  /** Before maturity, a claim on a consistent account succeeds exactly when the day
      reward it computes is zero (and the clock arithmetic fits in i64). Since
      `claim_balance` is zero, any positive reward underflows the subtraction, so a
      successful early claim pays nothing; it still moves the last claim time to `now`. */
  lemma PreMaturityClaim(state: State, info: StakeInfo, now: i64)
    requires Consistent(info)
    requires !state.paused && !info.hasClaimedAll
    requires now < info.stakeTime
    ensures Claim(state, info, now).Ok? <==>
      ClaimFitsI64(info, now) && DayReward(ElapsedDays(info, now), info.stakeBalance) == 0
    ensures Claim(state, info, now).Ok? ==>
      var r := Claim(state, info, now).value;
      && r.transfer == Transfer(ContractToUser, 0)
      && r.info == info.(lastClaimAt := now)
  {
  }

  /** The underflow on the subtraction from `claim_balance`: on a consistent account,
      every claim before maturity whose day reward is positive aborts. */
  lemma PositiveEarlyRewardAborts(state: State, info: StakeInfo, now: i64)
    requires Consistent(info)
    requires !state.paused && !info.hasClaimedAll
    requires now < info.stakeTime
    requires DayReward(ElapsedDays(info, now), info.stakeBalance) >= 1
    ensures Claim(state, info, now) == Err(ArithmeticOverflow)
  {
  }

  /** The day reward truncates to zero exactly when no whole day has passed or the
      balance is too small for 0.4% per day to reach one token unit:
      `days * 4 * balance < 1000`. */
  lemma DayRewardIsZeroIff(days: int, balance: u64)
    ensures DayReward(days, balance) == 0 <==> days <= 0 || days * balance < 250
  {
    if days > 0 {
      var x := days * REWARD_PER_DAY_PER_MILLE * balance;
      assert x == 4 * (days * balance);
      if days * balance < 250 {
        assert days * balance >= 0;
        assert 0 <= x < 1000;
        assert x / 1000 == 0;
      } else {
        assert x >= 1000;
        assert x / 1000 >= 1;
      }
    }
  }

  /** At least one whole day counts as elapsed exactly when 86 400 seconds or more have
      passed since the last claim; a clock reading before the last claim counts as no
      day at all. */
  lemma ElapsedDaysPositiveIff(info: StakeInfo, now: int)
    ensures ElapsedDays(info, now) >= 1 <==> now - info.lastClaimAt >= ONE_DAY_IN_UNIX
    ensures now - info.lastClaimAt < ONE_DAY_IN_UNIX ==> ElapsedDays(info, now) <= 0
  {
    var a := now - info.lastClaimAt;
    var q := ElapsedDays(info, now);
    assert q == TruncDiv(a, ONE_DAY_IN_UNIX);
    if a >= ONE_DAY_IN_UNIX {
      assert q * ONE_DAY_IN_UNIX > a - ONE_DAY_IN_UNIX >= 0;
    } else if a >= 0 {
      assert q * ONE_DAY_IN_UNIX <= a < ONE_DAY_IN_UNIX;
    } else {
      assert q * ONE_DAY_IN_UNIX < a + ONE_DAY_IN_UNIX < ONE_DAY_IN_UNIX;
    }
  }

  /** A claim less than a day after the previous one (or stake) pays nothing. */
  lemma UnderADayPaysNothing(info: StakeInfo, now: int)
    requires now - info.lastClaimAt < ONE_DAY_IN_UNIX
    ensures DayReward(ElapsedDays(info, now), info.stakeBalance) == 0
  {
    ElapsedDaysPositiveIff(info, now);
  }

  /** At or after maturity, a claim on a consistent, not fully claimed account pays 180%
      of the staked balance whatever tier was chosen and whatever was claimed before,
      marks the account fully claimed and leaves `claim_balance` at zero. */
  lemma MaturityClaimPaysFullBonus(state: State, info: StakeInfo, now: i64)
    requires Consistent(info)
    requires !state.paused && !info.hasClaimedAll
    requires now >= info.stakeTime
    requires ClaimFitsI64(info, now)
    ensures Claim(state, info, now) ==
      Ok(Receipt(info.(lastClaimAt := now, hasClaimedAll := true),
                 Transfer(ContractToUser, Percent(info.stakeBalance, BONUS_360_DAYS_PERCENT))))
  {
  }

  /** On a consistent account whose last claim is not in the future, the only i64
      arithmetic of `claim` that can overflow is the tier deadline; every claim at or
      after maturity then succeeds. */
  lemma MaturityClaimSucceeds(state: State, info: StakeInfo, now: i64)
    requires Consistent(info)
    requires !state.paused && !info.hasClaimedAll
    requires now >= info.stakeTime
    requires info.lastClaimAt >= 0
    requires info.stakedAt + THREE_HUNDRED_AND_SIXTY_DAYS_IN_UNIX <= I64_MAX
    ensures ClaimFitsI64(info, now)
    ensures Claim(state, info, now).Ok?
  {
    assert info.lastClaimAt < info.stakeTime <= now <= I64_MAX;
    assert 0 < now - info.lastClaimAt <= I64_MAX;
  }

  /** A successful withdrawal changes nothing, so it can be repeated at any later time
      and pays the whole balance again. */
  lemma WithdrawIsRepeatable(state: State, info: StakeInfo, now: i64, later: i64)
    requires Withdraw(state, info, now).Ok?
    requires later >= now
    ensures Withdraw(state, Withdraw(state, info, now).value.info, later) == Withdraw(state, info, now)
  {
  }

  /** `pause` and `un_pause` undo each other, for any signers. */
  lemma PauseThenUnPause(state: State, signer: Pubkey, other: Pubkey)
    requires !state.paused
    ensures Pause(state, signer).Ok?
    ensures UnPause(Pause(state, signer).value, other) == Ok(state)
  {
  }

  lemma UnPauseThenPause(state: State, signer: Pubkey, other: Pubkey)
    requires state.paused
    ensures UnPause(state, signer).Ok?
    ensures Pause(UnPause(state, signer).value, other) == Ok(state)
  {
  }

  /** Right after `initialize` anyone can pause and nobody can unpause. */
  lemma InitializeStartsUnpaused(admin: Pubkey, signer: Pubkey)
    ensures Pause(Initialize(admin), signer) == Ok(State(admin, true))
    ensures UnPause(Initialize(admin), signer) == Err(ContractNotPaused)
  {
  }

  /** The admin comparison never fails, so no instruction ever reports `Unauthorized`,
      whoever signs. */
  lemma NeverUnauthorized(state: State, info: StakeInfo, now: i64, amount: u64, tier: StakeTime, signer: Pubkey)
    ensures Pause(state, signer) != Err(Unauthorized)
    ensures UnPause(state, signer) != Err(Unauthorized)
    ensures Stake(state, info, now, amount, tier) != Err(Unauthorized)
    ensures Claim(state, info, now) != Err(Unauthorized)
    ensures Withdraw(state, info, now) != Err(Unauthorized)
  {
  }
}
