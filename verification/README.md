# voip-staking, modelled in Dafny

A model of the voip-staking Solana program (`programs/voip-staking/src/lib.rs`): a
time-locked token staking ledger. Users stake tokens for 100, 180 or 360 days. They
claim a reward that accrues at 0.4% of the balance per whole day, or a lump-sum
bonus at maturity. Once every reward is claimed and the lock is over, they withdraw
the principal. An admin can pause and unpause the program.

The model follows the Rust code as written, including where it does not do what its
comments say:

- `matches!(x, _name)` treats `_name` as a fresh binding pattern, so each of those
  checks always passes. The "never claimed before" test, the three tier tests and the
  admin test of `pause`/`un_pause` never reject anything.
- So a claim at or after maturity always pays 180% of the balance, whatever the tier
  and whatever was claimed before.
- `claim_balance` is always 0 between instructions. A claim before maturity that
  computes a reward of one token unit or more underflows the `u64` subtraction on
  line 128 and aborts. Early claims therefore succeed only when they pay nothing.
- `stake` adds the new amount to the existing balance. It resets every other field.
- `withdraw` does not touch the account, so the same withdrawal can be repeated.

Module layout:

- `ints.dfy` (`Ints`): the Rust integer types `u64`/`i64` as subset types of `int`,
  Rust's truncating signed division, and the saturating float-to-`u64` cast.
- `staking.dfy` (`Staking`): the `State` and `StakeInfo` accounts, the `StakeTime`
  tiers, the time constants, the error kinds and the six handlers as pure functions.
  Each handler returns either an error, or the new account plus the one transfer
  (direction, amount) it issues. Overflow-checked arithmetic that leaves its type is the
  error `ArithmeticOverflow`.
- `handler_properties.dfy` (`HandlerProperties`): lemmas about single instructions.
- `machine.dfy` (`Machine`): the program as a transition system over a ledger holding
  the global state and a stake account per user. Transactions are all-or-nothing: a
  handler error or a refused transfer leaves the ledger unchanged. Lemmas here relate
  sequences of transactions.
- `intended.dfy` (`Intended`): the claim handler as its comments describe it, with
  its properties proved (see Findings).
- `findings.dfy` (`Findings`): concrete inputs on which the code as written and the
  corrected claim differ.

The clock (`Clock::get`) is an input `now` to each instruction. The token transfers are
returned values; whether the token program accepts one is an input `transferOk` of each
transaction.

## Model

| member | source | states |
|---|---|---|
| `Staking.Initialize` | programs/voip-staking/src/lib.rs:20-25 | the signer becomes the admin and the program starts unpaused |
| `Staking.Stake` | programs/voip-staking/src/lib.rs:27-72 | fails with ContractPaused when paused and otherwise only on u64/i64 overflow; on success the balance grows by `amount` (it is not reset), both timestamps become `now`, maturity is `now` plus the tier's lock, the claim state is cleared, exactly `amount` moves user→program, and the account is consistent |
| `Staking.Settle` | programs/voip-staking/src/lib.rs:87-124 | the reward the handler settles on: at or after maturity, 180% of the balance for every tier and claim history; before maturity, the day reward for the whole days since the last claim |
| `Staking.Claim` | programs/voip-staking/src/lib.rs:74-156 | guard order ContractPaused, HasClaimedAllReward, then i64 overflow; fails exactly when one of these holds or an early reward exceeds `claim_balance`; on success balance, stake time and maturity are kept, the last claim becomes `now`, the account is fully claimed exactly when `now` ≥ maturity, and the payout goes program→user |
| `Staking.Withdraw` | programs/voip-staking/src/lib.rs:158-202 | guard order ContractPaused, HasNotClaimedAllReward, StakePeriodNotOver; succeeds exactly when unpaused, fully claimed and matured; then pays back the whole balance and leaves the account unchanged |
| `Staking.Pause` | programs/voip-staking/src/lib.rs:204-217 | fails (ContractPaused) exactly when already paused; otherwise sets paused and keeps the admin |
| `Staking.UnPause` | programs/voip-staking/src/lib.rs:219-232 | fails (ContractNotPaused) exactly when not paused; otherwise clears paused and keeps the admin |
| `Ints.TruncDiv` | programs/voip-staking/src/lib.rs:99 | the i64 quotient rounds toward zero: the remainder lies strictly within one divisor of zero and takes the dividend's sign |
| `Ints.SaturateU64` | programs/voip-staking/src/lib.rs:138 | the `as u64` cast keeps values in range, sends negatives to 0 and clamps values above u64::MAX |
| `HandlerProperties.StakeSetsMaturity` | programs/voip-staking/src/lib.rs:12-55 | after a stake, maturity − stake time is 8 640 000, 15 552 000 or 31 104 000 s for the three tiers, so maturity is after the stake time |
| `HandlerProperties.RestakeAddsToPrincipal` | programs/voip-staking/src/lib.rs:36-41 | whatever the account held, an unpaused non-overflowing stake succeeds and keeps the earlier principal plus the new amount while resetting the claim state |
| `HandlerProperties.ClaimKeepsConsistent` | programs/voip-staking/src/lib.rs:126-131 | a successful claim keeps `claim_balance` at 0 and "fully claimed ⇔ last claim ≥ maturity" |
| `HandlerProperties.PreMaturityClaim` | programs/voip-staking/src/lib.rs:87-131 | before maturity, a claim on a consistent account succeeds iff its i64 arithmetic fits and its day reward is 0; a successful one pays 0 and changes only the last claim time |
| `HandlerProperties.PositiveEarlyRewardAborts` | programs/voip-staking/src/lib.rs:126-128 | before maturity, a positive day reward makes the claim abort with ArithmeticOverflow (the u64 underflow) |
| `HandlerProperties.DayRewardIsZeroIff` | programs/voip-staking/src/lib.rs:99-100 | the day reward is 0 iff no whole day elapsed or days × balance < 250 (0.4% per day rounds down below one unit) |
| `HandlerProperties.ElapsedDaysPositiveIff` | programs/voip-staking/src/lib.rs:93-99 | at least one whole day counts iff ≥ 86 400 s passed since the last claim; less time, or a clock before the last claim, counts none |
| `HandlerProperties.UnderADayPaysNothing` | programs/voip-staking/src/lib.rs:93-100 | a claim less than one day after the last claim computes a day reward of exactly 0 |
| `HandlerProperties.MaturityClaimPaysFullBonus` | programs/voip-staking/src/lib.rs:106-131 | at or after maturity, a claim pays 180% of the balance whatever the tier or claim history, marks the account fully claimed and changes nothing else |
| `HandlerProperties.MaturityClaimSucceeds` | programs/voip-staking/src/lib.rs:87-104 | on a consistent account with a non-negative last claim time and an in-range 360-day deadline, the claim's i64 arithmetic fits and a mature claim succeeds |
| `HandlerProperties.WithdrawIsRepeatable` | programs/voip-staking/src/lib.rs:182-199 | the account a withdrawal leaves permits the same withdrawal again at any later time, paying the same amount |
| `HandlerProperties.PauseThenUnPause` | programs/voip-staking/src/lib.rs:204-232 | pausing an unpaused program succeeds, and unpausing by any signer restores the exact prior state |
| `HandlerProperties.UnPauseThenPause` | programs/voip-staking/src/lib.rs:204-232 | unpausing a paused program succeeds, and pausing by any signer restores the exact prior state |
| `HandlerProperties.InitializeStartsUnpaused` | programs/voip-staking/src/lib.rs:20-25 | right after initialize, any signer can pause, and unpausing fails with ContractNotPaused |
| `HandlerProperties.NeverUnauthorized` | programs/voip-staking/src/lib.rs:209-210 | no instruction ever fails with Unauthorized, whoever signs |
| `Machine.Genesis` | programs/voip-staking/src/lib.rs:20-25 | the initial ledger is unpaused, has the signer as admin, holds no stake account and satisfies the ledger invariant |
| `Machine.CommitReceipt` | programs/voip-staking/src/lib.rs:150-153 | a handler's new account is committed iff the handler succeeded and the transfer was accepted; a refused transfer yields TransferFailed |
| `Machine.Step` | programs/voip-staking/src/lib.rs:20-232 | one transaction: at most one transfer; it preserves the invariant, touches only the account it names and never removes one; pause blocks every account instruction; never Unauthorized; a withdrawal pays exactly the principal and only when fully claimed and matured; a fully claimed account cannot claim |
| `Machine.RunKeepsInv` | programs/voip-staking/src/lib.rs:27-156 | every account stays consistent across any sequence of transactions |
| `Machine.FailedStepChangesNothing` | programs/voip-staking/src/lib.rs:69 | a failed transaction leaves the ledger unchanged and moves no tokens |
| `Machine.UntouchedAccountUnchanged` | programs/voip-staking/src/lib.rs:251-260 | an account that no transaction names survives with identical contents |
| `Machine.PausedLedgerIsFrozen` | programs/voip-staking/src/lib.rs:28-30 | while paused and until an unpause, any sequence of transactions changes nothing and moves no tokens |
| `Machine.FullyClaimedUntilRestake` | programs/voip-staking/src/lib.rs:82-85 | a fully claimed account stays fully claimed with the same principal until its owner stakes again |
| `Machine.LastClaimNeverDecreases` | programs/voip-staking/src/lib.rs:36-41 | with a clock that never goes back, an account's last claim time never decreases |
| `Machine.StakeClaimWithdraw` | programs/voip-staking/src/lib.rs:27-202 | for a first-time staker, stake, one claim at or after maturity, then withdraw make exactly three transfers: principal in, 180% of it out, principal out |
| `Machine.WithdrawTwice` | programs/voip-staking/src/lib.rs:158-202 | a successful withdrawal repeated immediately pays the principal a second time |
| `Intended.Claim` | programs/voip-staking/src/lib.rs:106-131 | corrected claim: same guards and flag bookkeeping, never aborts once the guards pass, keeps accounts consistent |
| `Intended.FirstMatureClaimPaysTierBonus` | programs/voip-staking/src/lib.rs:107-122 | corrected: a first claim at or after maturity pays 56%, 108% or 180% according to the staked tier |
| `Intended.EarlyClaimPaysDayReward` | programs/voip-staking/src/lib.rs:92-100 | corrected: a claim before maturity succeeds and pays the day reward for the whole days since the last claim |
| `Intended.LateClaimAfterEarlierClaims` | programs/voip-staking/src/lib.rs:92-96 | corrected: after earlier claims, a mature claim pays only the whole days up to maturity |
| `Intended.SplitClaimsPayNoMore` | programs/voip-staking/src/lib.rs:92-100 | corrected: while the reward for the whole period fits in u64, two early claims never pay more in total than one claim at the later time |
| `Findings.TierIgnoredWitness` | programs/voip-staking/src/lib.rs:110-122 | 1000 units staked for 100 days, claimed at maturity: the code pays 1800, the corrected claim 560 |
| `Findings.EarlierClaimIgnoredWitness` | programs/voip-staking/src/lib.rs:108-110 | 1000 units for 360 days, a zero-paying claim at second 1, then a claim at maturity: the code pays 1800, the corrected claim 1436 |
| `Intended.Pause` | programs/voip-staking/src/lib.rs:204-217 | corrected pause: fails with ContractPaused when paused, otherwise with Unauthorized for any signer but the admin; succeeds exactly for the admin of an unpaused program |
| `Intended.UnPause` | programs/voip-staking/src/lib.rs:219-232 | corrected unpause: fails with ContractNotPaused when unpaused, otherwise with Unauthorized for any signer but the admin; succeeds exactly for the admin of a paused program |
| `Intended.AdminOnlyPause` | programs/voip-staking/src/lib.rs:209-210 | corrected: the admin gets exactly the code's result; any other signer is refused, with Unauthorized wherever the code would have switched the program |
| `Findings.NonAdminPauseWitness` | programs/voip-staking/src/lib.rs:210 | admin `Pubkey(0)`: signer `Pubkey(1)` pauses and unpauses under the code, and gets Unauthorized under the corrected handlers |
| `Findings.EarlyClaimUnderflowWitness` | programs/voip-staking/src/lib.rs:126-128 | 1000 units for 100 days, claimed at day 50: the day reward is 200; the code aborts, the corrected claim pays 200 |

## Findings

| source | as written | input that shows it | evidently intended | confidence | as-written member | corrected member |
|---|---|---|---|---|---|---|
| programs/voip-staking/src/lib.rs:111-122 | `matches!(stake_time, _one_hundred_days)` and its two siblings bind fresh names, so all three match and the 180% assignment runs last | 1000 units, 100-day tier, first claim at maturity: pays 1800 | pay the staked tier's bonus: 56%, 108% or 180% (560 here) | high; not executed | `Findings.TierIgnoredWitness` | `Intended.FirstMatureClaimPaysTierBonus` |
| programs/voip-staking/src/lib.rs:110 | `matches!(last_claim, _staked_at)` always matches, so the bonus is paid even after earlier claims | 1000 units, 360-day tier, claim at second 1 (pays 0), claim at maturity: pays 1800 | bonus only for a first claim; otherwise the day reward up to maturity (1436 here) | high; not executed | `Findings.EarlierClaimIgnoredWitness` | `Intended.LateClaimAfterEarlierClaims` |
| programs/voip-staking/src/lib.rs:128 | `claim_balance -= stake_reward as u64` with `claim_balance` = 0 underflows whenever an early claim computes a positive reward | 1000 units, 100-day tier, claim at day 50: reward 200, the instruction aborts | pay the day reward (200 here) | medium (assumes overflow checks on, which is the Anchor default; with them off the subtraction wraps instead); not executed | `Findings.EarlyClaimUnderflowWitness` | `Intended.EarlyClaimPaysDayReward` |
| programs/voip-staking/src/lib.rs:210-225 | `matches!(admin, _signer)` binds a fresh name, so the admin check of `pause` and `un_pause` always passes | admin `Pubkey(0)`, signer `Pubkey(1)`: pause and unpause both succeed | refuse any signer but the admin with Unauthorized | high; not executed | `Findings.NonAdminPauseWitness` | `Intended.AdminOnlyPause` |

The ledger of module `Machine` runs the handlers as written, because that is what the
deployed program does. The corrected claim of module `Intended` is a separate
definition, and so are its corrected `pause` and `un_pause`. The claim properties are
proved for single claims and for pairs of claims.

## Left out

- Token transfers through the SPL token program (lib.rs:57-69, 133-153, 178-199) are not modelled. Each transfer is a returned (direction, amount) value. A refused transfer rolls back its transaction. Token balances, the PDA signer seeds and the recipient token account are not modelled.
- Account provisioning is not modelled: PDAs, seeds, bumps, `init`, `init_if_needed`, `payer`, `space` and `LEN` (lib.rs:236-346, 356-358, 371-373). A first `stake` starts from the zeroed account that `init_if_needed` creates. A claim or withdrawal on a user with no account fails with `AccountNotInitialized`. The global account always exists after `Genesis`. A `claim` or `withdraw` before `initialize` cannot succeed, since no stake account can exist before the global one (lib.rs:262-263). A second `initialize` fails on `init` (lib.rs:238) and is not modelled.
- Token account binding is not modelled. Neither `user_ata` nor `contract_ata` is constrained in `Stake`, `Claim` or `Withdraw` (lib.rs:265-268, 292-295, 319-322). `UserToContract` and `ContractToUser` name the accounts the code intends, not accounts the program enforces.
- Signer binding is not modelled. `Claim`/`Withdraw` do not tie the stake account to the signer (lib.rs:280-281, 307-308). In the model an instruction simply names the account it acts on. The `pause`/`un_pause` signer is a parameter that the code ignores.
- f64 arithmetic (lib.rs:11, 100, 112-120) is replaced by exact integer floors: `days*4*balance/1000` and `balance*pct/100`. Real f64 rounding can differ by one unit near integer boundaries, and it loses precision above 2^53. The saturating `as u64` cast is modelled.
- `Clock::get` (lib.rs:33, 79, 168) becomes the input `now`, and its failure is not modelled. Rust's truncating i64 division is modelled explicitly, so negative elapsed times need no precondition.
- Overflow-checked arithmetic is assumed, so an overflow aborts the transaction. This is the Anchor workspace default. Cargo.toml is not part of this model.
- `msg!` logging (lib.rs:214, 229) is not modelled because it has no logic.
- tests/voip-staking.ts is not modelled. It is an RPC script against a local validator with no logic of its own.
- `Intended.Claim` computes with exact integers. It does not repeat the i64 overflow aborts of the code as written, and it does not change `claim_balance`.
