/** The balancer pool messages of the gamm module: the create-pool request
    (`MsgCreateBalancerPool`) with its admission checks, signer, initial
    liquidity and hand-off to pool construction, and the migrate-shares request
    (`MsgMigrateSharesToFullRangeConcentratedPosition`) at its boundary. */
module Balancer {
  import opened Wrappers
  import opened Coins

  newtype uint64 = x: int | 0 <= x < 0x1_0000_0000_0000_0000

  /** `sdk.AccAddress`: the raw bytes of an account address. */
  type Addr = seq<bv8>

  /** Pool parameters (swap fee, exit fee, weight-change schedule); their
      fields and rules are defined outside this file. */
  type PoolParams(==)

  /** A constructed balancer pool, as `NewBalancerPool` returns it. */
  type Pool

  /** A block time (`time.Time`). */
  type Time

  /** Everything in `sdk.Context` apart from the block time: store, gas meter,
      header. Nothing in this file reads it. */
  type OtherContext

  datatype Context = Context(blockTime: Time, rest: OtherContext)

  /** `PoolAsset`: a token with its weight in the pool. */
  datatype PoolAsset = PoolAsset(token: Coin, weight: int)

  /** `poolmanagertypes.PoolType`. */
  datatype PoolType = Balancer | Stableswap | Concentrated

  /** Errors this file produces itself, and errors it passes on unchanged. */
  datatype Error =
    | InvalidAddress(cause: string)  // sdkerrors.ErrInvalidAddress, "Invalid sender address (cause)"
    | Reported(message: string)      // names what the Env validators may return; nothing here builds it

  /** The collaborators this file calls but does not define. */
  datatype Env = Env(
    /** `sdk.AccAddressFromBech32`: the address, or the parse error's text. */
    accAddressFromBech32: string -> Result<Addr, string>,
    /** `sdk.AccAddress.String()`: the bech32 text of an address. */
    addressString: Addr -> string,
    /** `validateUserSpecifiedPoolAssets`. */
    validateUserSpecifiedPoolAssets: seq<PoolAsset> -> Outcome<Error>,
    /** `PoolParams.Validate(poolAssets)`. */
    validatePoolParams: (PoolParams, seq<PoolAsset>) -> Outcome<Error>,
    /** `types.ValidateFutureGovernor`. */
    validateFutureGovernor: string -> Outcome<Error>,
    /** `NewBalancerPool(poolID, params, assets, governor, blockTime)`: a pool and an error. */
    newBalancerPool: (uint64, PoolParams, seq<PoolAsset>, string, Time) -> (Pool, Outcome<Error>))

  const TypeMsgCreateBalancerPool: string := "create_balancer_pool"
  const TypeMsgMigrateShares: string := "migrate_shares"

  /** The sender check both messages start with: the address must parse. */
  function SenderCheck(env: Env, sender: string): Outcome<Error>
  {
    match env.accAddressFromBech32(sender)
    case Failure(e) => Fail(InvalidAddress(e))
    case Success(_) => Pass
  }

  /** The first failing outcome of an ordered list of checks, or Pass when none fails. */
  function FirstFailure(checks: seq<Outcome<Error>>): Outcome<Error>
  {
    if checks == [] then Pass
    else if checks[0].Fail? then checks[0]
    else FirstFailure(checks[1..])
  }

  /** The verdict of an ordered list of checks is Pass exactly when every check passes. */
  lemma {:induction false} FirstFailurePassIff(checks: seq<Outcome<Error>>)
    ensures FirstFailure(checks).Pass? <==> forall i :: 0 <= i < |checks| ==> checks[i].Pass?
  {
    if checks != [] && checks[0].Pass? {
      FirstFailurePassIff(checks[1..]);
      assert forall i :: 1 <= i < |checks| ==> checks[i] == checks[1..][i - 1];
    }
  }

  /** The verdict is the failure of the earliest failing check; checks after it
      play no part. */
  lemma {:induction false} FirstFailureAt(checks: seq<Outcome<Error>>, i: nat)
    requires i < |checks| && checks[i].Fail?
    requires forall j :: 0 <= j < i ==> checks[j].Pass?
    ensures FirstFailure(checks) == checks[i]
  {
    if i > 0 {
      FirstFailureAt(checks[1..], i - 1);
    }
  }

  datatype MsgCreateBalancerPool = MsgCreateBalancerPool(
    sender: string,
    poolParams: PoolParams,
    poolAssets: seq<PoolAsset>,
    futurePoolGovernor: string)
  {
    /** The four admission checks in the order `ValidateBasic` runs them:
        sender address, pool assets, pool params against the assets, future governor. */
    function Checks(env: Env): (cs: seq<Outcome<Error>>)
      ensures |cs| == 4
    {
      [ SenderCheck(env, sender),
        env.validateUserSpecifiedPoolAssets(poolAssets),
        env.validatePoolParams(poolParams, poolAssets),
        env.validateFutureGovernor(futurePoolGovernor) ]
    }

    /** Stateless admission: the sender must parse, then the assets, the params and
        the governor must validate; the first failure is returned as it is, except
        an unparsable sender, which is reported as an invalid address. */
    function ValidateBasic(env: Env): (r: Outcome<Error>)
      ensures r.Pass? <==>
        && env.accAddressFromBech32(sender).Success?
        && env.validateUserSpecifiedPoolAssets(poolAssets).Pass?
        && env.validatePoolParams(poolParams, poolAssets).Pass?
        && env.validateFutureGovernor(futurePoolGovernor).Pass?
      ensures env.accAddressFromBech32(sender).Failure? ==>
        r == Fail(InvalidAddress(env.accAddressFromBech32(sender).error))
    {
      var senderErr := SenderCheck(env, sender);
      if senderErr.Fail? then senderErr
      else
        var assetsErr := env.validateUserSpecifiedPoolAssets(poolAssets);
        if assetsErr.Fail? then assetsErr
        else
          var paramsErr := env.validatePoolParams(poolParams, poolAssets);
          if paramsErr.Fail? then paramsErr
          else
            var governorErr := env.validateFutureGovernor(futurePoolGovernor);
            if governorErr.Fail? then governorErr
            else Pass
    }

    /** `Validate(ctx)` forwards to `ValidateBasic`; the context plays no part. */
    function Validate(env: Env, ctx: Context): (r: Outcome<Error>)
      ensures r == ValidateBasic(env)
    {
      ValidateBasic(env)
    }

    /** The signers of the request: exactly the parsed sender. Go panics when the
        sender does not parse; here that is None. */
    function GetSigners(env: Env): (r: Option<seq<Addr>>)
      ensures r.Some? <==> env.accAddressFromBech32(sender).Success?
      ensures r.Some? ==> |r.value| == 1 && r.value[0] == env.accAddressFromBech32(sender).value
    {
      match env.accAddressFromBech32(sender)
      case Failure(_) => None
      case Success(a) => Some([a])
    }

    /** The creator of the pool: the request's one signer. None where Go panics. */
    function PoolCreator(env: Env): (r: Option<Addr>)
      ensures r.Some? <==> GetSigners(env).Some?
      ensures r.Some? ==> GetSigners(env) == Some([r.value])
    {
      match env.accAddressFromBech32(sender)
      case Failure(_) => None
      case Success(a) => Some(a)
    }

    /** The tokens of the assets, in the assets' order. */
    function Tokens(): (ts: seq<Coin>)
      ensures |ts| == |poolAssets|
      ensures forall i :: 0 <= i < |poolAssets| ==> ts[i] == poolAssets[i].token
    {
      seq(|poolAssets|, i requires 0 <= i < |poolAssets| => poolAssets[i].token)
    }

    /** The liquidity the creator deposits: each asset's token, sorted by
        denomination. The coins are copied out of the assets before they are
        sorted, so the request's own asset order is not touched (the request is
        a value here). Go panics on an empty asset list (a nil slice); here that
        is None. */
    method InitialLiquidity() returns (r: Option<seq<Coin>>)
      ensures r.None? <==> |poolAssets| == 0
      ensures r.Some? ==> |r.value| == |poolAssets|
      ensures r.Some? ==> multiset(r.value) == multiset(Tokens())
      ensures r.Some? ==> SortedByDenom(r.value)
    {
      var coins: seq<Coin> := [];
      for i := 0 to |poolAssets|
        invariant |coins| == i
        invariant forall k :: 0 <= k < i ==> coins[k] == poolAssets[k].token
      {
        coins := coins + [poolAssets[i].token];
      }
      if |coins| == 0 {
        return None;
      }
      assert coins == Tokens();
      var backing := new Coin[|coins|](k requires 0 <= k < |coins| => coins[k]);
      assert backing[..] == coins;
      Sort(backing);
      r := Some(backing[..]);
    }

    /** Hands the request to pool construction with the pool id and the block time. */
    function CreatePool(env: Env, ctx: Context, poolId: uint64): (r: (Pool, Outcome<Error>))
      ensures r == env.newBalancerPool(poolId, poolParams, poolAssets, futurePoolGovernor, ctx.blockTime)
    {
      env.newBalancerPool(poolId, poolParams, poolAssets, futurePoolGovernor, ctx.blockTime)
    }

    function GetPoolType(): PoolType
    {
      Balancer
    }

    /** The create-pool kind, distinct from the migrate-shares kind. */
    function Type(): (t: string)
      ensures t == "create_balancer_pool" && t != TypeMsgMigrateShares
    {
      TypeMsgCreateBalancerPool
    }
  }

  /** `NewMsgCreateBalancerPool`: the sender address is stored as its text. */
  function NewMsgCreateBalancerPool(
    env: Env, sender: Addr, poolParams: PoolParams, poolAssets: seq<PoolAsset>, futurePoolGovernor: string)
    : (msg: MsgCreateBalancerPool)
    ensures msg.sender == env.addressString(sender)
    ensures msg.poolParams == poolParams && msg.poolAssets == poolAssets
    ensures msg.futurePoolGovernor == futurePoolGovernor
  {
    MsgCreateBalancerPool(env.addressString(sender), poolParams, poolAssets, futurePoolGovernor)
  }

  /** The migrate-shares request. Only the sender is read here; the pool id and
      the shares are for the migration engine. */
  datatype MsgMigrateSharesToFullRangeConcentratedPosition = MsgMigrateSharesToFullRangeConcentratedPosition(
    sender: string,
    poolId: uint64,
    sharesToMigrate: Coin)
  {
    /** Only the sender address is checked. */
    function ValidateBasic(env: Env): (r: Outcome<Error>)
      ensures r.Pass? <==> env.accAddressFromBech32(sender).Success?
      ensures r.Fail? ==> r == Fail(InvalidAddress(env.accAddressFromBech32(sender).error))
    {
      SenderCheck(env, sender)
    }

    /** Exactly the parsed sender; None where Go panics. */
    function GetSigners(env: Env): (r: Option<seq<Addr>>)
      ensures r.Some? <==> env.accAddressFromBech32(sender).Success?
      ensures r.Some? ==> |r.value| == 1 && r.value[0] == env.accAddressFromBech32(sender).value
    {
      match env.accAddressFromBech32(sender)
      case Failure(_) => None
      case Success(a) => Some([a])
    }

    /** The migrate-shares kind, distinct from the create-pool kind. */
    function Type(): (t: string)
      ensures t == "migrate_shares" && t != TypeMsgCreateBalancerPool
    {
      TypeMsgMigrateShares
    }
  }
}
