/** The executor of native transactions: checks first, then debits and credits in place. */
module NativeExecutor {
  import opened Arithmetic
  import opened BigEndian
  import opened Staking
  import opened NativeTx
  import opened NativeRuns

  datatype Verdict = Ok(feePaid: nat) | Fail(error: NativeTx.Error) | Reject(error: NativeTx.Error)

  class Executor {
    const config: Config
    var balances: map<Address, nat>
    var nonces: map<Address, nat>
    var pool: Pool

    constructor (config: Config, w: World)
      ensures this.config == config && Now() == w
    {
      this.config, balances, nonces, pool := config, w.balances, w.nonces, w.pool;
    }

    ghost function Now(): World
      reads this
    {
      World(balances, nonces, pool)
    }

    method SubBalance(a: Address, amount: nat)
      modifies this`balances
      ensures balances == Debit(old(balances), a, amount)
    {
      balances := balances[a := (Balance(balances, a) - amount) % TwoTo256];
    }

    method AddBalance(a: Address, amount: nat)
      modifies this`balances
      ensures balances == Pay(old(balances), a, amount)
    {
      if amount != 0 {
        balances := balances[a := (Balance(balances, a) + amount) % TwoTo256];
      }
    }

    /** The fee goes to the sink, or is split with its delegators through the module's account. */
    method DistributeFee(fee: nat)
      modifies this`balances, this`pool
      ensures
        var split := FeeSplit(config, old(Now()), fee);
        && pool == split.pool && split.proposer + split.escrowed == fee
        && balances == Pay(Pay(old(balances), config.feeSink, split.proposer), config.moduleAddress, split.escrowed)
      ensures Supply(old(balances)) + fee < TwoTo256 ==> FeeArrived(config, old(Now()), balances, fee)
    {
      hide DistributeIncome, FeeArrived;
      SplitIsWhole(config, Now(), fee);
      if Supply(balances) + fee < TwoTo256 {
        FeeArrives(config, Now(), fee);
      }
      if !config.stakingEnabled {
        AddBalance(config.feeSink, fee);
        return;
      }
      var split := DistributeIncome(pool, fee);
      AddBalance(config.feeSink, split.proposer);
      AddBalance(config.moduleAddress, split.escrowed);
      pool := split.pool;
    }

    method CollectAllowed(tx: DewTx) returns (allowed: set<Address>)
      ensures allowed == Allowed(config, tx)
    {
      allowed := {tx.sender, tx.receiver};
      for i := 0 to |tx.accessList|
        invariant allowed == {tx.sender, tx.receiver} + set a | a in tx.accessList[..i]
      {
        assert tx.accessList[..i + 1] == tx.accessList[..i] + [tx.accessList[i]];
        allowed := allowed + {tx.accessList[i]};
      }
      assert tx.accessList[..|tx.accessList|] == tx.accessList;
      allowed := allowed + {config.feeSink};
    }

    method ApplyDewTx(tx: DewTx) returns (v: Verdict)
      modifies this
      ensures
        match NativeTx.ApplyDewTx(config, old(Now()), tx)
        case Applied(w, fee) => v == Ok(fee) && Now() == w
        case Failed(e) => v == Fail(e) && Now() == old(Now())
        case Rejected(e) => v == Reject(e) && Now() == old(Now())
      ensures v.Ok? <==>
        tx.version == 1 && FeeOk(tx) && NonceOk(old(Now()), tx) && PayloadOk(config, tx) && BalanceOk(old(Now()), tx)
      ensures Supply(old(balances)) < TwoTo256 && tx.amount + Extra(tx).amount + FeeOf(tx) < TwoTo256 ==>
        Supply(balances) == Supply(old(balances))
    {
      AppliedIff(config, Now(), tx);
      hide Pay, Debit, DistributeIncome, Supply, FeeArrived, FeeOk, NonceOk, PayloadOk, BalanceOk;
      if NativeTx.ApplyDewTx(config, Now(), tx).Applied? && Supply(balances) < TwoTo256 &&
         tx.amount + Extra(tx).amount + FeeOf(tx) < TwoTo256 {
        SupplyIsKept(config, Now(), tx);
      }
      if tx.version != TxVersion { return Reject(BadVersion); }
      var fee := tx.fee;
      if fee == 0 {
        fee := DefaultFee;
      }
      if fee < MinFee { return Reject(LowFee); }
      var allowed := CollectAllowed(tx);
      if Nonce(nonces, tx.sender) != tx.nonce { return Reject(BadNonce); }
      var extra := Credit(tx.sender, 0);
      if |tx.payload| > 0 {
        if tx.payload[0] != CreditTag { return Fail(UnknownModule); }
        if |tx.payload| != 1 + 20 + 32 { return Fail(BadPayload); }
        extra := Credit(Value(tx.payload[1..21]), Value(tx.payload[21..53]));
        if extra.to !in allowed { return Fail(NotInAccessList); }
      }
      assert extra == Extra(tx);
      var need := ((tx.amount + extra.amount) % TwoTo256 + fee) % TwoTo256;
      if Balance(balances, tx.sender) < need { return Reject(InsufficientBalance); }
      SubBalance(tx.sender, need);
      AddBalance(tx.receiver, tx.amount);
      AddBalance(extra.to, extra.amount);
      DistributeFee(fee);
      nonces := nonces[tx.sender := (tx.nonce + 1) % TwoTo64];
      return Ok(fee);
    }
  }
}
