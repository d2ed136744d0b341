/** The program as a transition system: one global account, one stake account per user,
    and transactions that each run one instruction at a given clock reading.

    A transaction is all-or-nothing: when the handler fails, or the token program refuses
    the transfer the handler asks for, the ledger is left exactly as it was and no tokens
    move. `Run` replays a sequence of transactions and collects the transfers that happened.
 */
module Machine {
  import opened Ints
  import opened Staking

  datatype Instruction =
    | StakeIx(user: Pubkey, amount: u64, tier: StakeTime)
    | ClaimIx(user: Pubkey)
    | WithdrawIx(user: Pubkey)
    | PauseIx(signer: Pubkey)
    | UnPauseIx(signer: Pubkey)
  {
    /** The instructions that act on a user's stake account. */
    predicate OnAccount() { StakeIx? || ClaimIx? || WithdrawIx? }
  }

  /** One transaction: the instruction, the clock reading it sees, and whether the token
      program accepts the transfer the instruction issues. */
  datatype Event = Event(ix: Instruction, now: i64, transferOk: bool)

  /** The program's accounts: the global state and the stake account of every user who
      has staked. */
  datatype Ledger = Ledger(state: State, records: map<Pubkey, StakeInfo>)

  /** A ledger together with the transfers that led to it: those of one committed
      transaction (at most one), or every transfer made while replaying several. */
  datatype Trace = Trace(ledger: Ledger, transfers: seq<Transfer>)

  /** Every stake account in the ledger is consistent. */
  predicate Inv(l: Ledger)
  {
    forall u :: u in l.records ==> Consistent(l.records[u])
  }

  /** The ledger right after `initialize`: unpaused, nobody staked yet. */
  function Genesis(admin: Pubkey): (l: Ledger)
    ensures l.state.admin == admin && !l.state.paused
    ensures l.records == map[]
    ensures Inv(l)
  {
    Ledger(Initialize(admin), map[])
  }

  /** The stake account `stake` works on: the existing one, or a freshly created zeroed
      account for a first-time staker. */
  function AccountForStake(l: Ledger, user: Pubkey): StakeInfo
  {
    if user in l.records then l.records[user] else EmptyStakeInfo
  }

  /** Commit a user instruction's outcome: keep its new account only if the token program
      accepts its transfer. */
  function CommitReceipt(l: Ledger, user: Pubkey, r: Result<Receipt>, transferOk: bool): (c: Result<Trace>)
    ensures c.Ok? <==> r.Ok? && transferOk
    ensures r.Err? ==> c == Err(r.error)
    ensures r.Ok? && !transferOk ==> c == Err(TransferFailed)
    ensures c.Ok? ==>
      c.value == Trace(l.(records := l.records[user := r.value.info]), [r.value.transfer])
  {
    match r
    case Err(e) => Err(e)
    case Ok(receipt) =>
      if !transferOk then Err(TransferFailed)
      else Ok(Trace(l.(records := l.records[user := receipt.info]), [receipt.transfer]))
  }

  /** Commit a change of the global state, which moves no tokens. */
  function CommitState(l: Ledger, r: Result<State>): (c: Result<Trace>)
    ensures r.Err? ==> c == Err(r.error)
    ensures r.Ok? ==> c == Ok(Trace(l.(state := r.value), []))
  {
    match r
    case Err(e) => Err(e)
    case Ok(s) => Ok(Trace(l.(state := s), []))
  }

  /** One transaction. A claim or withdrawal needs an existing stake account; the
      runtime refuses the transaction before the handler runs otherwise. */
  function Step(l: Ledger, e: Event): (r: Result<Trace>)
    ensures r.Ok? ==> |r.value.transfers| <= 1
    ensures Inv(l) && r.Ok? ==> Inv(r.value.ledger)
    // nothing but the account the instruction names changes, and no account disappears
    ensures r.Ok? ==> l.records.Keys <= r.value.ledger.records.Keys
    ensures r.Ok? ==>
      r.value.ledger.records.Keys <= l.records.Keys + (if e.ix.OnAccount() then {e.ix.user} else {})
    ensures r.Ok? ==> forall u :: u in l.records && !(e.ix.OnAccount() && e.ix.user == u) ==>
      r.value.ledger.records[u] == l.records[u]
    ensures r.Ok? && e.ix.OnAccount() ==> r.value.ledger.state == l.state
    // the pause switch
    ensures l.state.paused && e.ix.OnAccount() ==> r.Err?
    ensures r != Err(Unauthorized)
    // withdrawal pays back the principal only once everything is claimed and the lock is over
    ensures r.Ok? && e.ix.WithdrawIx? ==>
      && e.ix.user in l.records
      && l.records[e.ix.user].hasClaimedAll
      && e.now >= l.records[e.ix.user].stakeTime
      && r.value.transfers == [Transfer(ContractToUser, l.records[e.ix.user].stakeBalance)]
    // a fully claimed account cannot claim again
    ensures e.ix.ClaimIx? && e.ix.user in l.records && l.records[e.ix.user].hasClaimedAll ==> r.Err?
  {
    match e.ix
    case StakeIx(user, amount, tier) =>
      CommitReceipt(l, user, Stake(l.state, AccountForStake(l, user), e.now, amount, tier), e.transferOk)
    case ClaimIx(user) =>
      if user !in l.records then Err(AccountNotInitialized)
      else
        var r := Claim(l.state, l.records[user], e.now);
        assert Inv(l) && r.Ok? ==> Consistent(r.value.info) by {
          if Inv(l) && r.Ok? {
            assert Consistent(l.records[user]);
          }
        }
        CommitReceipt(l, user, r, e.transferOk)
    case WithdrawIx(user) =>
      if user !in l.records then Err(AccountNotInitialized)
      else CommitReceipt(l, user, Withdraw(l.state, l.records[user], e.now), e.transferOk)
    case PauseIx(signer) =>
      CommitState(l, Pause(l.state, signer))
    case UnPauseIx(signer) =>
      CommitState(l, UnPause(l.state, signer))
  }

  /** Run one transaction; a failed one leaves the ledger as it was and moves nothing. */
  function Apply(l: Ledger, e: Event): Trace
  {
    match Step(l, e)
    case Ok(c) => c
    case Err(_) => Trace(l, [])
  }

  /** Replay transactions in order. */
  function Run(l: Ledger, es: seq<Event>): Trace
    decreases |es|
  {
    if |es| == 0 then Trace(l, [])
    else
      var first := Apply(l, es[0]);
      var rest := Run(first.ledger, es[1..]);
      Trace(rest.ledger, first.transfers + rest.transfers)
  }

  /** The clock readings of `es` never go back, and none is before `t`. */
  predicate ClockFrom(t: int, es: seq<Event>)
    decreases |es|
  {
    |es| == 0 || (t <= es[0].now && ClockFrom(es[0].now, es[1..]))
  }

  /** Every stake account stays consistent, whatever transactions run. */
  lemma {:induction false} RunKeepsInv(l: Ledger, es: seq<Event>)
    requires Inv(l)
    ensures Inv(Run(l, es).ledger)
    decreases |es|
  {
    if |es| > 0 {
      RunKeepsInv(Apply(l, es[0]).ledger, es[1..]);
    }
  }

  /** A transaction that fails changes nothing and moves no tokens. */
  lemma FailedStepChangesNothing(l: Ledger, e: Event)
    requires Step(l, e).Err?
    ensures Apply(l, e) == Trace(l, [])
  {
  }

  /** Accounts are never closed, and an account that no transaction names keeps its
      contents. */
  lemma {:induction false} UntouchedAccountUnchanged(l: Ledger, es: seq<Event>, u: Pubkey)
    requires u in l.records
    requires forall i :: 0 <= i < |es| ==> !(es[i].ix.OnAccount() && es[i].ix.user == u)
    ensures u in Run(l, es).ledger.records
    ensures Run(l, es).ledger.records[u] == l.records[u]
    decreases |es|
  {
    if |es| > 0 {
      UntouchedAccountUnchanged(Apply(l, es[0]).ledger, es[1..], u);
    }
  }

  /** While the program is paused and nobody unpauses it, no transaction changes
      anything and no tokens move. */
  lemma {:induction false} PausedLedgerIsFrozen(l: Ledger, es: seq<Event>)
    requires l.state.paused
    requires forall i :: 0 <= i < |es| ==> !es[i].ix.UnPauseIx?
    ensures Run(l, es) == Trace(l, [])
    decreases |es|
  {
    if |es| > 0 {
      assert Step(l, es[0]).Err? by {
        if es[0].ix.PauseIx? {
          assert Pause(l.state, es[0].ix.signer) == Err(ContractPaused);
        }
      }
      PausedLedgerIsFrozen(l, es[1..]);
    }
  }

  /** Once an account is fully claimed it stays so, and keeps its principal, until its
      owner stakes again; until then every claim on it fails. */
  lemma {:induction false} FullyClaimedUntilRestake(l: Ledger, es: seq<Event>, u: Pubkey)
    requires u in l.records && l.records[u].hasClaimedAll
    requires forall i :: 0 <= i < |es| ==> !(es[i].ix.StakeIx? && es[i].ix.user == u)
    ensures u in Run(l, es).ledger.records
    ensures Run(l, es).ledger.records[u].hasClaimedAll
    ensures Run(l, es).ledger.records[u].stakeBalance == l.records[u].stakeBalance
    decreases |es|
  {
    if |es| > 0 {
      var next := Apply(l, es[0]).ledger;
      assert u in next.records && next.records[u].hasClaimedAll
          && next.records[u].stakeBalance == l.records[u].stakeBalance by {
        if Step(l, es[0]).Ok? && es[0].ix.OnAccount() && es[0].ix.user == u {
          assert !es[0].ix.StakeIx?;
          assert !es[0].ix.ClaimIx?;
        }
      }
      FullyClaimedUntilRestake(next, es[1..], u);
    }
  }

  /** With a clock that never goes back, an account's last claim time never decreases:
      both a claim and a re-stake set it to the current clock reading. */
  lemma {:induction false} LastClaimNeverDecreases(l: Ledger, es: seq<Event>, u: Pubkey, t: int)
    requires u in l.records
    requires l.records[u].lastClaimAt <= t
    requires ClockFrom(t, es)
    ensures u in Run(l, es).ledger.records
    ensures Run(l, es).ledger.records[u].lastClaimAt >= l.records[u].lastClaimAt
    decreases |es|
  {
    if |es| > 0 {
      var next := Apply(l, es[0]).ledger;
      assert u in next.records;
      assert l.records[u].lastClaimAt <= next.records[u].lastClaimAt <= es[0].now;
      LastClaimNeverDecreases(next, es[1..], u, es[0].now);
    }
  }

  /** The lifecycle of one stake: staking `amount` in any tier, claiming once at or after
      maturity and then withdrawing moves exactly three transfers: the principal in, 180%
      of it out as the bonus, and the principal out again. */
  lemma StakeClaimWithdraw(l: Ledger, user: Pubkey, amount: u64, tier: StakeTime, t0: i64, t1: i64, t2: i64)
    requires !l.state.paused
    requires user !in l.records
    requires 0 <= t0 && t0 + THREE_HUNDRED_AND_SIXTY_DAYS_IN_UNIX <= I64_MAX
    requires t0 + LockDuration(tier) <= t1 <= t2
    ensures
      var es := [Event(StakeIx(user, amount, tier), t0, true),
                 Event(ClaimIx(user), t1, true),
                 Event(WithdrawIx(user), t2, true)];
      Run(l, es).transfers == [Transfer(UserToContract, amount),
                               Transfer(ContractToUser, Percent(amount, BONUS_360_DAYS_PERCENT)),
                               Transfer(ContractToUser, amount)]
  {
    var es := [Event(StakeIx(user, amount, tier), t0, true),
               Event(ClaimIx(user), t1, true),
               Event(WithdrawIx(user), t2, true)];
    var info0 := Stake(l.state, EmptyStakeInfo, t0, amount, tier).value.info;
    var l1 := l.(records := l.records[user := info0]);
    assert Apply(l, es[0]) == Trace(l1, [Transfer(UserToContract, amount)]);
    var info1 := info0.(lastClaimAt := t1, hasClaimedAll := true);
    assert ClaimFitsI64(info0, t1);
    assert Claim(l1.state, info0, t1) ==
      Ok(Receipt(info1, Transfer(ContractToUser, Percent(amount, BONUS_360_DAYS_PERCENT))));
    var l2 := l1.(records := l1.records[user := info1]);
    assert Apply(l1, es[1]) == Trace(l2, [Transfer(ContractToUser, Percent(amount, BONUS_360_DAYS_PERCENT))]);
    assert Apply(l2, es[2]) == Trace(l2, [Transfer(ContractToUser, amount)]);
    assert es[1..][1..] == [es[2]];
    assert Run(l2, [es[2]]) == Trace(l2, [Transfer(ContractToUser, amount)]);
  }

  /** Withdrawal does not close or empty the account, so the same withdrawal succeeds
      again and pays the principal a second time. */
  lemma WithdrawTwice(l: Ledger, e: Event)
    requires e.ix.WithdrawIx? && e.transferOk
    requires Step(l, e).Ok?
    ensures Run(l, [e, e]).transfers ==
      [Transfer(ContractToUser, l.records[e.ix.user].stakeBalance),
       Transfer(ContractToUser, l.records[e.ix.user].stakeBalance)]
  {
    var t := [Transfer(ContractToUser, l.records[e.ix.user].stakeBalance)];
    assert Apply(l, e) == Trace(l, t);
    assert [e, e][1..] == [e];
    assert Run(l, [e]) == Trace(l, t);
  }
}
