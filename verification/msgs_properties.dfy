/** What the balancer messages promise across calls: the admission checks run
    in a fixed order and stop at the first failure, an admitted request always
    has its signer, and the initial liquidity is determined by the assets. */
module BalancerProperties {
  import opened Wrappers
  import opened Coins
  import opened Balancer

  /** `ValidateBasic` reports the first failure among its four checks, in the
      order sender, assets, params, governor. */
  lemma ValidateBasicIsFirstFailure(env: Env, msg: MsgCreateBalancerPool)
    ensures msg.ValidateBasic(env) == FirstFailure(msg.Checks(env))
  {
    var cs := msg.Checks(env);
    assert FirstFailure(cs) == (if cs[0].Fail? then cs[0] else FirstFailure([cs[1], cs[2], cs[3]])) by {
      assert cs[1..] == [cs[1], cs[2], cs[3]];
    }
    assert FirstFailure([cs[1], cs[2], cs[3]]) == (if cs[1].Fail? then cs[1] else FirstFailure([cs[2], cs[3]])) by {
      assert [cs[1], cs[2], cs[3]][1..] == [cs[2], cs[3]];
    }
    assert FirstFailure([cs[2], cs[3]]) == (if cs[2].Fail? then cs[2] else FirstFailure([cs[3]])) by {
      assert [cs[2], cs[3]][1..] == [cs[3]];
    }
    assert FirstFailure([cs[3]]) == (if cs[3].Fail? then cs[3] else Pass) by {
      assert [cs[3]][1..] == [];
    }
  }

  /** When check `i` is the earliest that fails, its error is the verdict. */
  lemma ValidateBasicReportsEarliestFailure(env: Env, msg: MsgCreateBalancerPool, i: nat)
    requires i < 4 && msg.Checks(env)[i].Fail?
    requires forall j :: 0 <= j < i ==> msg.Checks(env)[j].Pass?
    ensures msg.ValidateBasic(env) == msg.Checks(env)[i]
  {
    ValidateBasicIsFirstFailure(env, msg);
    FirstFailureAt(msg.Checks(env), i);
  }

  /** Checks after a failing one are never consulted: two sets of collaborators
      that agree on the checks up to a failing check `i` give the same verdict,
      whatever the later checks would say. */
  lemma ValidateBasicIgnoresLaterChecks(env1: Env, env2: Env, msg: MsgCreateBalancerPool, i: nat)
    requires i < 4 && msg.Checks(env1)[i].Fail?
    requires forall j :: 0 <= j <= i ==> msg.Checks(env1)[j] == msg.Checks(env2)[j]
    ensures msg.ValidateBasic(env1) == msg.ValidateBasic(env2)
  {
    var cs1, cs2 := msg.Checks(env1), msg.Checks(env2);
    var first := 0;
    while cs1[first].Pass?
      invariant first <= i
      invariant forall j :: 0 <= j < first ==> cs1[j].Pass?
      decreases i - first
    {
      first := first + 1;
    }
    ValidateBasicReportsEarliestFailure(env1, msg, first);
    ValidateBasicReportsEarliestFailure(env2, msg, first);
  }

  /** A request that passed `ValidateBasic` has exactly one signer, the parsed
      sender, and it is the pool creator: the panics in `GetSigners` and
      `PoolCreator` cannot fire after admission. */
  lemma AdmittedRequestHasCreator(env: Env, msg: MsgCreateBalancerPool)
    requires msg.ValidateBasic(env).Pass?
    ensures msg.GetSigners(env).Some? && msg.PoolCreator(env).Some?
    ensures msg.GetSigners(env) == Some([msg.PoolCreator(env).value])
    ensures msg.PoolCreator(env) == Some(env.accAddressFromBech32(msg.sender).value)
  {
  }

  /** A request built by `NewMsgCreateBalancerPool` names the given address as
      its creator and only signer, provided the address codec reads back what it
      writes. */
  lemma NewMsgCreatorRoundTrip(
    env: Env, sender: Addr, poolParams: PoolParams, poolAssets: seq<PoolAsset>, futurePoolGovernor: string)
    requires env.accAddressFromBech32(env.addressString(sender)) == Success(sender)
    ensures NewMsgCreateBalancerPool(env, sender, poolParams, poolAssets, futurePoolGovernor).PoolCreator(env) == Some(sender)
    ensures NewMsgCreateBalancerPool(env, sender, poolParams, poolAssets, futurePoolGovernor).GetSigners(env) == Some([sender])
  {
  }

  /** Both messages judge the sender the same way: for the same sender text, the
      migrate-shares request fails exactly when the create-pool request fails its
      first check, with the same error, and then the create-pool request fails
      with that error too. */
  lemma SenderCheckShared(env: Env, create: MsgCreateBalancerPool, migrate: MsgMigrateSharesToFullRangeConcentratedPosition)
    requires create.sender == migrate.sender
    ensures migrate.ValidateBasic(env) == create.Checks(env)[0]
    ensures migrate.ValidateBasic(env).Fail? ==> create.ValidateBasic(env) == migrate.ValidateBasic(env)
    ensures create.ValidateBasic(env).Pass? ==> migrate.ValidateBasic(env).Pass?
  {
  }

  /** The migrate-shares verdict reads only the sender: the pool id and the
      shares to migrate play no part. */
  lemma MigrateValidateBasicReadsOnlySender(
    env: Env, m1: MsgMigrateSharesToFullRangeConcentratedPosition, m2: MsgMigrateSharesToFullRangeConcentratedPosition)
    requires m1.sender == m2.sender
    ensures m1.ValidateBasic(env) == m2.ValidateBasic(env)
    ensures m1.GetSigners(env) == m2.GetSigners(env)
  {
  }

  /** `CreatePool` reads only the block time from the context. */
  lemma CreatePoolReadsOnlyBlockTime(env: Env, msg: MsgCreateBalancerPool, ctx1: Context, ctx2: Context, poolId: uint64)
    requires ctx1.blockTime == ctx2.blockTime
    ensures msg.CreatePool(env, ctx1, poolId) == msg.CreatePool(env, ctx2, poolId)
  {
  }

  /** The message kinds are told apart by their type strings. */
  lemma MessageKinds(create: MsgCreateBalancerPool, migrate: MsgMigrateSharesToFullRangeConcentratedPosition)
    ensures create.Type() == TypeMsgCreateBalancerPool && migrate.Type() == TypeMsgMigrateShares
    ensures create.Type() != migrate.Type()
  {
  }

  /** Every create-pool request, whatever its contents, creates a balancer pool
      and never a pool of another kind. */
  lemma CreatesBalancerPool(msg: MsgCreateBalancerPool)
    ensures msg.GetPoolType() == Balancer
    ensures msg.GetPoolType() != Stableswap && msg.GetPoolType() != Concentrated
  {
  }

  /** With distinct denominations the initial liquidity is fully determined by
      the assets: any result `InitialLiquidity` may return equals the assets'
      tokens put in denomination order `sorted`. */
  lemma InitialLiquidityDetermined(msg: MsgCreateBalancerPool, sorted: seq<Coin>, r: seq<Coin>)
    requires DistinctDenoms(sorted) && SortedByDenom(sorted) && multiset(sorted) == multiset(msg.Tokens())
    requires SortedByDenom(r) && multiset(r) == multiset(msg.Tokens())
    ensures r == sorted
  {
    SortedPermutationUnique(sorted, r);
  }

  /** Two assets, uosmo then uatom: the initial liquidity lists uatom first. */
  lemma InitialLiquidityTwoAssets(params: PoolParams, sender: string, r: seq<Coin>)
    requires
      var msg := MsgCreateBalancerPool(sender, params,
        [PoolAsset(Coin("uosmo", 1000), 1), PoolAsset(Coin("uatom", 1000), 1)], "");
      SortedByDenom(r) && multiset(r) == multiset(msg.Tokens())
    ensures r == [Coin("uatom", 1000), Coin("uosmo", 1000)]
  {
    var msg := MsgCreateBalancerPool(sender, params,
      [PoolAsset(Coin("uosmo", 1000), 1), PoolAsset(Coin("uatom", 1000), 1)], "");
    var expected := [Coin("uatom", 1000), Coin("uosmo", 1000)];
    assert msg.Tokens() == [Coin("uosmo", 1000), Coin("uatom", 1000)];
    assert !DenomLess("uosmo", "uatom") by {
      assert "uosmo"[0] == "uatom"[0] && "uosmo"[1] > "uatom"[1];
      assert "uosmo"[1..][0] > "uatom"[1..][0];
    }
    assert "uatom" != "uosmo" by { assert "uatom"[1] != "uosmo"[1]; }
    assert SortedByDenom(expected);
    assert multiset(expected) == multiset(msg.Tokens());
    SortedPermutationUnique(expected, r);
  }
}
