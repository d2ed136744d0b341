/** The voip-staking program: the global `State`, the per-user `StakeInfo`, the three lock
    tiers, the program's error kinds and its six instruction handlers.

    Each handler is a pure function of the accounts it reads and the clock reading `now`.
    It returns either an error, or the account after the instruction together with the one
    token transfer the instruction issues. The transfer itself is left to the caller, which
    discards the new account when it fails (see `Machine.CommitReceipt`).
 */
module Staking {
  import opened Ints

  const ONE_HOUR_IN_UNIX: int := 3600
  const ONE_DAY_IN_UNIX: int := ONE_HOUR_IN_UNIX * 24
  const ONE_HUNDRED_DAYS_IN_UNIX: int := 100 * ONE_DAY_IN_UNIX
  const ONE_HUNDRED_AND_EIGHTY_DAYS_IN_UNIX: int := 180 * ONE_DAY_IN_UNIX
  const THREE_HUNDRED_AND_SIXTY_DAYS_IN_UNIX: int := 360 * ONE_DAY_IN_UNIX

  /** The daily reward rate of 0.4%, in thousandths of the staked balance. */
  const REWARD_PER_DAY_PER_MILLE: int := 4

  /** The three maturity bonuses of the claim handler, in percent of the staked balance. */
  const BONUS_100_DAYS_PERCENT: int := 56
  const BONUS_180_DAYS_PERCENT: int := 108
  const BONUS_360_DAYS_PERCENT: int := 180

  /** An account address. */
  datatype Pubkey = Pubkey(id: nat)

  /** The lock tier a user picks when staking. */
  datatype StakeTime = OneHundredDays | OneHundredAndEightyDays | ThreeHundredAndSixtyDays

  /** The global account: who may pause the program and whether it is paused. */
  datatype State = State(admin: Pubkey, paused: bool)

  /** A user's stake account. */
  datatype StakeInfo = StakeInfo(
    stakeBalance: u64,
    stakedAt: i64,
    lastClaimAt: i64,
    stakeTime: i64,
    claimBalance: u64,
    hasClaimedAll: bool)

  /** The stake account as the runtime creates it before the first `stake` writes to it:
      every field zero. */
  const EmptyStakeInfo: StakeInfo := StakeInfo(0, 0, 0, 0, 0, false)

  /** Why an instruction fails. The first six are the program's own error kinds;
      `ArithmeticOverflow` is the abort of an overflow-checked integer operation,
      `AccountNotInitialized` is the runtime refusing a stake account that does not exist,
      and `TransferFailed` is the token program refusing a transfer. */
  datatype Error =
    | ContractPaused
    | ContractNotPaused
    | Unauthorized
    | HasClaimedAllReward
    | HasNotClaimedAllReward
    | StakePeriodNotOver
    | ArithmeticOverflow
    | AccountNotInitialized
    | TransferFailed

  datatype Result<T> = Ok(value: T) | Err(error: Error)

  /** Which way tokens move between the user's token account and the program's. */
  datatype Direction = UserToContract | ContractToUser

  datatype Transfer = Transfer(direction: Direction, amount: u64)

  /** What a successful user instruction leaves behind: the stake account after it, and
      the transfer it asks the token program for. */
  datatype Receipt = Receipt(info: StakeInfo, transfer: Transfer)

  /** Seconds a tier locks the stake for. */
  function LockDuration(tier: StakeTime): (d: int)
    ensures ONE_HUNDRED_DAYS_IN_UNIX <= d <= THREE_HUNDRED_AND_SIXTY_DAYS_IN_UNIX
  {
    match tier
    case OneHundredDays => ONE_HUNDRED_DAYS_IN_UNIX
    case OneHundredAndEightyDays => ONE_HUNDRED_AND_EIGHTY_DAYS_IN_UNIX
    case ThreeHundredAndSixtyDays => THREE_HUNDRED_AND_SIXTY_DAYS_IN_UNIX
  }

  /** `matches!(x, name)` where `name` is a plain identifier: the identifier is a fresh
      binding pattern rather than a reference to the variable of that name, so the
      pattern matches every value and the comparison the code seems to make never happens. */
  predicate IrrefutableMatch<T>(scrutinee: T, binding: T)
  {
    true
  }

  /** The day-based reward `days * 0.004 * balance`, cast to u64: fractions are dropped,
      and a non-positive day count yields a non-positive float that the cast turns into 0. */
  function DayReward(days: int, balance: u64): u64
  {
    if days <= 0 then 0 else SaturateU64(days * REWARD_PER_DAY_PER_MILLE * balance / 1000)
  }

  /** `balance * (pct / 100)` cast to u64. */
  function Percent(balance: u64, pct: nat): u64
  {
    SaturateU64(balance * pct / 100)
  }

  /** Whole days since the last claim, as the claim handler divides them for a claim
      before maturity. */
  function ElapsedDays(info: StakeInfo, now: int): int
  {
    TruncDiv(now - info.lastClaimAt, ONE_DAY_IN_UNIX)
  }

  /** The invariant of every stake account written by `stake`: the lock has positive
      length, the bonus accumulator is empty, and the account is marked fully claimed
      exactly when its last claim happened at or after maturity. */
  predicate Consistent(info: StakeInfo)
  {
    && info.stakedAt < info.stakeTime
    && info.claimBalance == 0
    && (info.hasClaimedAll <==> info.lastClaimAt >= info.stakeTime)
  }

  /** `initialize`: the caller becomes the admin and the program starts unpaused. */
  function Initialize(admin: Pubkey): (s: State)
    ensures s.admin == admin
    ensures !s.paused
  {
    State(admin, false)
  }

  /** `stake`: refuse while paused; otherwise add `amount` to the balance already staked,
      restart the lock at `now` for the chosen tier, forget all claim progress, and move
      `amount` from the user to the program. Overflowing the balance or the maturity
      timestamp aborts. */
  function Stake(state: State, info: StakeInfo, now: i64, amount: u64, tier: StakeTime): (r: Result<Receipt>)
    ensures state.paused ==> r == Err(ContractPaused)
    ensures r.Err? <==>
      state.paused || !InU64(info.stakeBalance + amount) || !InI64(now + LockDuration(tier))
    ensures r.Err? && !state.paused ==> r.error == ArithmeticOverflow
    ensures r.Ok? ==>
      && r.value.info.stakeBalance == info.stakeBalance + amount
      && r.value.info.stakedAt == now
      && r.value.info.lastClaimAt == now
      && r.value.info.stakeTime == now + LockDuration(tier)
      && r.value.info.claimBalance == 0
      && !r.value.info.hasClaimedAll
      && r.value.transfer == Transfer(UserToContract, amount)
    ensures r.Ok? ==> Consistent(r.value.info)
  {
    if state.paused then Err(ContractPaused)
    else if !InU64(info.stakeBalance + amount) then Err(ArithmeticOverflow)
    else
      var stakeTime := now + LockDuration(tier);
      if !InI64(stakeTime) then Err(ArithmeticOverflow)
      else
        var info' := StakeInfo(info.stakeBalance + amount, now, now, stakeTime, 0, false);
        Ok(Receipt(info', Transfer(UserToContract, amount)))
  }

  /** The signed 64-bit arithmetic `claim` does before it can pay: the time since the
      last claim, that time capped at maturity, and the three tier deadlines
      `staked_at + duration` (the largest one fitting implies the other two do). */
  predicate ClaimFitsI64(info: StakeInfo, now: int)
  {
    && InI64(now - info.lastClaimAt)
    && (now > info.stakeTime ==> InI64(info.stakeTime - info.lastClaimAt))
    && InI64(info.stakedAt + THREE_HUNDRED_AND_SIXTY_DAYS_IN_UNIX)
  }

  /** The reward `claim` settles on and the `claim_balance` it has written, just before
      it subtracts the one from the other. At or after maturity every `matches!` guard
      matches, so the three tier assignments all run and the last one, 180% of the
      balance, wins whatever the tier and whatever was claimed before. Before maturity the
      stake period is the time since the last claim, and the cap at maturity the handler
      applies when `now` is past it never reaches the payout. */
  function Settle(info: StakeInfo, now: int): (s: (u64, u64))
    requires ClaimFitsI64(info, now)
    ensures now >= info.stakeTime ==>
      s == (Percent(info.stakeBalance, BONUS_360_DAYS_PERCENT), Percent(info.stakeBalance, BONUS_360_DAYS_PERCENT))
    ensures now < info.stakeTime ==>
      s == (DayReward(ElapsedDays(info, now), info.stakeBalance), info.claimBalance)
  {
    var balance := info.stakeBalance;
    var stakePeriod :=
      if now > info.stakeTime then info.stakeTime - info.lastClaimAt else now - info.lastClaimAt;
    var dayReward := DayReward(TruncDiv(stakePeriod, ONE_DAY_IN_UNIX), balance);
    var oneHundredDays := ONE_HUNDRED_DAYS_IN_UNIX + info.stakedAt;
    var oneHundredAndEightyDays := ONE_HUNDRED_AND_EIGHTY_DAYS_IN_UNIX + info.stakedAt;
    var threeHundredAndSixtyDays := THREE_HUNDRED_AND_SIXTY_DAYS_IN_UNIX + info.stakedAt;
    // (reward to pay, claim_balance) as the tier assignments leave them
    var dayBased := (dayReward, info.claimBalance);
    var after100 :=
      if IrrefutableMatch(info.stakeTime, oneHundredDays)
      then (Percent(balance, BONUS_100_DAYS_PERCENT), Percent(balance, BONUS_100_DAYS_PERCENT))
      else dayBased;
    var after180 :=
      if IrrefutableMatch(info.stakeTime, oneHundredAndEightyDays)
      then (Percent(balance, BONUS_180_DAYS_PERCENT), Percent(balance, BONUS_180_DAYS_PERCENT))
      else after100;
    var after360 :=
      if IrrefutableMatch(info.stakeTime, threeHundredAndSixtyDays)
      then (Percent(balance, BONUS_360_DAYS_PERCENT), Percent(balance, BONUS_360_DAYS_PERCENT))
      else after180;
    if now >= info.stakeTime && IrrefutableMatch(info.lastClaimAt, info.stakedAt)
    then after360
    else dayBased
  }

  /** `claim`, as the handler is written: refuse while paused or once everything is
      claimed; otherwise pay what `Settle` computes, subtract it from `claim_balance`
      (an underflow aborts), record the claim time, and mark the account fully claimed
      when the claim happens at or after maturity. */
  function Claim(state: State, info: StakeInfo, now: i64): (r: Result<Receipt>)
    ensures state.paused ==> r == Err(ContractPaused)
    ensures !state.paused && info.hasClaimedAll ==> r == Err(HasClaimedAllReward)
    ensures !state.paused && !info.hasClaimedAll && !ClaimFitsI64(info, now) ==>
      r == Err(ArithmeticOverflow)
    ensures r.Err? <==>
      || state.paused
      || info.hasClaimedAll
      || !ClaimFitsI64(info, now)
      || (now < info.stakeTime && DayReward(ElapsedDays(info, now), info.stakeBalance) > info.claimBalance)
    ensures r.Ok? ==>
      && r.value.info.stakeBalance == info.stakeBalance
      && r.value.info.stakedAt == info.stakedAt
      && r.value.info.stakeTime == info.stakeTime
      && r.value.info.lastClaimAt == now
      && (r.value.info.hasClaimedAll <==> now >= info.stakeTime)
      && r.value.transfer.direction == ContractToUser
    ensures r.Ok? && now < info.stakeTime ==>
      && r.value.transfer.amount == DayReward(ElapsedDays(info, now), info.stakeBalance)
      && r.value.info.claimBalance + r.value.transfer.amount == info.claimBalance
    ensures r.Ok? && now >= info.stakeTime ==>
      && r.value.transfer.amount == Percent(info.stakeBalance, BONUS_360_DAYS_PERCENT)
      && r.value.info.claimBalance == 0
  {
    if state.paused then Err(ContractPaused)
    else if info.hasClaimedAll then Err(HasClaimedAllReward)
    else if !ClaimFitsI64(info, now) then Err(ArithmeticOverflow)
    else
      var (reward, claimBalance) := Settle(info, now);
      if claimBalance - reward < 0 then Err(ArithmeticOverflow)
      else
        var info' := info.(
          lastClaimAt := now,
          claimBalance := claimBalance - reward,
          hasClaimedAll := if now >= info.stakeTime then true else info.hasClaimedAll);
        Ok(Receipt(info', Transfer(ContractToUser, reward)))
  }

  /** `withdraw`: refuse while paused, then before every reward is claimed, then before
      maturity; otherwise pay the whole staked balance back. The account is left as it
      was, so nothing stops the same withdrawal from being made again. */
  function Withdraw(state: State, info: StakeInfo, now: i64): (r: Result<Receipt>)
    ensures state.paused ==> r == Err(ContractPaused)
    ensures !state.paused && !info.hasClaimedAll ==> r == Err(HasNotClaimedAllReward)
    ensures !state.paused && info.hasClaimedAll && now < info.stakeTime ==>
      r == Err(StakePeriodNotOver)
    ensures r.Ok? <==> !state.paused && info.hasClaimedAll && now >= info.stakeTime
    ensures r.Ok? ==>
      && r.value.info == info
      && r.value.transfer == Transfer(ContractToUser, info.stakeBalance)
  {
    if state.paused then Err(ContractPaused)
    else if !info.hasClaimedAll then Err(HasNotClaimedAllReward)
    else if now < info.stakeTime then Err(StakePeriodNotOver)
    else Ok(Receipt(info, Transfer(ContractToUser, info.stakeBalance)))
  }

  /** `pause`: refuse when already paused. The admin check compares through an
      irrefutable pattern, so any signer may pause. */
  function Pause(state: State, signer: Pubkey): (r: Result<State>)
    ensures r.Err? <==> state.paused
    ensures r.Err? ==> r.error == ContractPaused
    ensures r.Ok? ==> r.value.admin == state.admin && r.value.paused
  {
    if state.paused then Err(ContractPaused)
    else if !IrrefutableMatch(state.admin, signer) then Err(Unauthorized)
    else Ok(state.(paused := true))
  }

  /** `un_pause`: refuse when not paused; the admin check is irrefutable as in `pause`. */
  function UnPause(state: State, signer: Pubkey): (r: Result<State>)
    ensures r.Err? <==> !state.paused
    ensures r.Err? ==> r.error == ContractNotPaused
    ensures r.Ok? ==> r.value.admin == state.admin && !r.value.paused
  {
    if !state.paused then Err(ContractNotPaused)
    else if !IrrefutableMatch(state.admin, signer) then Err(Unauthorized)
    else Ok(state.(paused := false))
  }
}
