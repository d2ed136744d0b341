/** Concrete inputs on which the handlers as written and the corrected ones of module
    Intended disagree. The claim witnesses start from 1000 token units staked at time 0
    by a first-time staker while the program is unpaused; the pause witness starts from
    the unpaused program whose admin is `Pubkey(0)`. */
module Findings {
  import opened Ints
  import opened Staking
  import Intended

  const Unpaused: State := State(Pubkey(0), false)

  /** The account right after staking 1000 units at time 0 in `tier`. */
  function Staked(tier: StakeTime): (info: StakeInfo)
    ensures info.stakeBalance == 1000 && info.stakedAt == 0 && info.lastClaimAt == 0
    ensures info.stakeTime == LockDuration(tier)
    ensures info.claimBalance == 0 && !info.hasClaimedAll
  {
    Stake(Unpaused, EmptyStakeInfo, 0, 1000, tier).value.info
  }

  /** The tier is ignored: a first claim at maturity of a 100-day stake pays 180%
      (1800 units) where the tier promises 56% (560 units). */
  lemma TierIgnoredWitness()
    ensures Claim(Unpaused, Staked(OneHundredDays), 8_640_000).value.transfer.amount == 1800
    ensures Intended.Claim(Unpaused, Staked(OneHundredDays), 8_640_000).value.transfer.amount == 560
  {
  }

  /** Earlier claims are ignored: after a claim one second into a 360-day stake (which
      pays nothing), the claim at maturity still pays the full 180% bonus (1800 units),
      where only the 359 whole days since that claim (1436 units) are owed. */
  lemma EarlierClaimIgnoredWitness()
    ensures
      var info := Staked(ThreeHundredAndSixtyDays);
      && Claim(Unpaused, info, 1) == Ok(Receipt(info.(lastClaimAt := 1), Transfer(ContractToUser, 0)))
      && Claim(Unpaused, info.(lastClaimAt := 1), 31_104_000).value.transfer.amount == 1800
      && Intended.Claim(Unpaused, info.(lastClaimAt := 1), 31_104_000).value.transfer.amount == 1436
  {
    var info := Staked(ThreeHundredAndSixtyDays);
    assert ElapsedDays(info, 1) == 0;
    assert TruncDiv(31_104_000 - 1, ONE_DAY_IN_UNIX) == 359;
  }

  /** The early claim underflows: fifty days into a 100-day stake the day reward is
      200 units, and the handler aborts subtracting it from a `claim_balance` of zero,
      where the reward was to be paid. */
  lemma EarlyClaimUnderflowWitness()
    ensures
      var info := Staked(OneHundredDays);
      && DayReward(ElapsedDays(info, 4_320_000), info.stakeBalance) == 200
      && Claim(Unpaused, info, 4_320_000) == Err(ArithmeticOverflow)
      && Intended.Claim(Unpaused, info, 4_320_000).value.transfer.amount == 200
  {
    var info := Staked(OneHundredDays);
    assert ElapsedDays(info, 4_320_000) == 50;
  }

  /** The admin check is ignored: a signer other than the admin pauses an unpaused
      program and unpauses a paused one, where `Unauthorized` was meant. */
  lemma NonAdminPauseWitness()
    ensures Pause(Unpaused, Pubkey(1)) == Ok(Unpaused.(paused := true))
    ensures UnPause(Unpaused.(paused := true), Pubkey(1)) == Ok(Unpaused)
    ensures Intended.Pause(Unpaused, Pubkey(1)) == Err(Unauthorized)
    ensures Intended.UnPause(Unpaused.(paused := true), Pubkey(1)) == Err(Unauthorized)
  {
  }
}
