# Balancer pool messages (osmosis gamm module)

A Dafny model of `x/gamm/pool-models/balancer/msgs.go`. The file defines two messages of the osmosis AMM module: the request to create a weighted (balancer) pool, and the request to migrate pool shares into a full-range concentrated-liquidity position.

For the create-pool request `MsgCreateBalancerPool` the model covers:

- stateless admission (`ValidateBasic`, and `Validate`, which forwards to it). This is a fail-fast chain of four checks: the sender address parses, the assets are valid, the pool params are valid for those assets, and the future-governor string is valid.
- signer enumeration (`GetSigners`) and the pool creator (`PoolCreator`).
- the initial liquidity: the assets' tokens copied into a fresh slice and sorted by denomination.
- the hand-off to pool construction (`CreatePool`).

For the migrate-shares request the model covers its sender-only `ValidateBasic` and its `GetSigners`.

Files:

- `wrappers.dfy`: `Option`, `Result` and `Outcome`.
- `coins.dfy` (module `Coins`): `sdk.Coin`, Go's string order on denominations (`DenomLess`), and `sdk.Coins.Sort`. The sort is an in-place insertion sort over an array, the loop Go's `sort.Sort` runs.
- `msgs.dfy` (module `Balancer`): the two messages, their operations and the unseen collaborators.
- `msgs_properties.dfy` (module `BalancerProperties`): properties that relate several operations.

Collaborators that `msgs.go` calls but does not define are fields of the `Env` datatype. They are function values, and nothing is assumed about them:

- `sdk.AccAddressFromBech32`
- `sdk.AccAddress.String`
- `validateUserSpecifiedPoolAssets`
- `PoolParams.Validate`
- `types.ValidateFutureGovernor`
- `NewBalancerPool`

Go panics become `None`. This covers `GetSigners` and `PoolCreator` on an unparsable sender, and `InitialLiquidity` on a nil coin slice. A nil coin slice happens exactly when the asset list is empty.

Requests are values, so every operation is a function of the request and the collaborators. Validating the same request twice therefore gives the same verdict, and `InitialLiquidity` cannot reorder the request's own `poolAssets`: it copies the tokens and sorts only that copy.

An empty asset list makes `InitialLiquidity` panic (`None` here); no dedicated error is returned. Errors from `validateUserSpecifiedPoolAssets`, `PoolParams.Validate` and `types.ValidateFutureGovernor` are passed on unchanged; the model does the same with the `Error` values that `Env` supplies.

## Model

| member | source | states |
|---|---|---|
| Balancer.MsgCreateBalancerPool.ValidateBasic | x/gamm/pool-models/balancer/msgs.go:37-59 | Pass exactly when all four checks pass. An unparsable sender gives an invalid-address error that carries the parser's error. |
| Balancer.FirstFailurePassIff | x/gamm/pool-models/balancer/msgs.go:37-58 | A fail-fast chain of checks passes if and only if every check in it passes. |
| Balancer.FirstFailureAt | x/gamm/pool-models/balancer/msgs.go:38-56 | A fail-fast chain returns the error of its earliest failing check. |
| BalancerProperties.ValidateBasicIsFirstFailure | x/gamm/pool-models/balancer/msgs.go:37-58 | ValidateBasic returns the first failure among sender, assets, params-against-assets and governor, in that order. |
| BalancerProperties.ValidateBasicReportsEarliestFailure | x/gamm/pool-models/balancer/msgs.go:38-56 | When check i is the first to fail, its error is the verdict. |
| BalancerProperties.ValidateBasicIgnoresLaterChecks | x/gamm/pool-models/balancer/msgs.go:38-56 | Checks after the first failing one are not consulted. Collaborators that agree up to a failing check give the same verdict. |
| Balancer.MsgCreateBalancerPool.Validate | x/gamm/pool-models/balancer/msgs.go:83-85 | Returns the ValidateBasic verdict for every context. |
| Balancer.MsgCreateBalancerPool.GetSigners | x/gamm/pool-models/balancer/msgs.go:65-71 | Exactly one signer, the parsed sender. No signers list (the Go panic) exactly when the sender does not parse. |
| Balancer.MsgCreateBalancerPool.PoolCreator | x/gamm/pool-models/balancer/msgs.go:75-81 | The creator exists exactly when GetSigners succeeds, and it is GetSigners' only signer. |
| BalancerProperties.AdmittedRequestHasCreator | x/gamm/pool-models/balancer/msgs.go:37-81 | After ValidateBasic passes, GetSigners and PoolCreator cannot panic, and both give the parsed sender. |
| Balancer.NewMsgCreateBalancerPool | x/gamm/pool-models/balancer/msgs.go:21-33 | The built request stores the sender's address text and keeps the params, assets and governor unchanged. |
| BalancerProperties.NewMsgCreatorRoundTrip | x/gamm/pool-models/balancer/msgs.go:21-81 | If the address codec reads back what it writes, a built request has the given address as its creator and its only signer. |
| Balancer.MsgCreateBalancerPool.InitialLiquidity | x/gamm/pool-models/balancer/msgs.go:87-97 | None exactly when there are no assets. Otherwise: one coin per asset, a permutation of the assets' tokens, sorted by denomination. |
| Coins.Sort | x/gamm/pool-models/balancer/msgs.go:95 | Sorts the coins in place. The result is sorted by denomination and is a permutation of the input. |
| Coins.SortedPermutationUnique | x/gamm/pool-models/balancer/msgs.go:95 | With distinct denominations, two sorted arrangements of the same coins are equal. |
| BalancerProperties.InitialLiquidityDetermined | x/gamm/pool-models/balancer/msgs.go:87-97 | With distinct denominations, the initial liquidity equals the assets' tokens in denomination order, whatever the asset order. |
| BalancerProperties.InitialLiquidityTwoAssets | x/gamm/pool-models/balancer/msgs.go:87-97 | The assets uosmo then uatom give the initial liquidity [uatom, uosmo]. |
| Balancer.MsgCreateBalancerPool.CreatePool | x/gamm/pool-models/balancer/msgs.go:99-102 | Passes the pool id, params, assets, governor and block time to pool construction, and returns its pool and error. |
| BalancerProperties.CreatePoolReadsOnlyBlockTime | x/gamm/pool-models/balancer/msgs.go:99-102 | CreatePool reads nothing from the context but the block time. |
| Balancer.MsgMigrateSharesToFullRangeConcentratedPosition.ValidateBasic | x/gamm/pool-models/balancer/msgs.go:112-119 | Pass exactly when the sender parses. Otherwise an invalid-address error. |
| BalancerProperties.MigrateValidateBasicReadsOnlySender | x/gamm/pool-models/balancer/msgs.go:112-131 | The migrate-shares verdict and signers depend on the sender only. |
| BalancerProperties.SenderCheckShared | x/gamm/pool-models/balancer/msgs.go:37-41 | Both messages judge a sender alike. For the same sender, the migrate verdict is the create request's first check. |
| Balancer.MsgMigrateSharesToFullRangeConcentratedPosition.GetSigners | x/gamm/pool-models/balancer/msgs.go:125-131 | Exactly one signer, the parsed sender. None exactly when the sender does not parse. |
| BalancerProperties.MessageKinds | x/gamm/pool-models/balancer/msgs.go:11-14 | The two message kinds' type strings differ. |
| Balancer.MsgCreateBalancerPool.Type | x/gamm/pool-models/balancer/msgs.go:36 | The create-pool type string is "create_balancer_pool", not the migrate-shares one. |
| Balancer.MsgMigrateSharesToFullRangeConcentratedPosition.Type | x/gamm/pool-models/balancer/msgs.go:111 | The migrate-shares type string is "migrate_shares", not the create-pool one. |
| BalancerProperties.CreatesBalancerPool | x/gamm/pool-models/balancer/msgs.go:104-106 | GetPoolType is Balancer for every create-pool request, never another pool kind. |

## Left out

- `Route`: both messages return `types.RouterKey`, a constant defined in another file, which is not part of this model.
- `GetSignBytes` of both messages: amino JSON marshalling followed by `sdk.MustSortJSON`. The codec is not part of this model.
- Bech32 parsing and formatting, `validateUserSpecifiedPoolAssets`, `PoolParams.Validate`, `types.ValidateFutureGovernor` and `NewBalancerPool` are defined elsewhere. They are unconstrained parameters, so no asset, fee or governor rule is modelled.
- Because the asset validator is unconstrained, the model does not show that an admitted request always has a non-empty asset list. It therefore does not show that `InitialLiquidity` never panics after admission.
- Denominations are Dafny strings (sequences of Unicode scalar values), while Go strings are byte strings. A denomination that is not valid UTF-8, and its byte-wise order, cannot be represented.
- `PoolParams` is a pointer in the Go message. The case where it is nil (a panic when it is dereferenced) is not modelled: the model's request always carries params.
- Coins.Sort: for slices of more than 12 coins, Go's `sort.Sort` switches from insertion sort to pattern-defeating quicksort. The model always runs insertion sort. Go's sort is not stable, so with duplicate denominations the order among equal denominations may differ from the model's. Only sortedness and permutation are promised, and those hold for both.
- `CreatePool` returns a pointer to the pool even when construction fails. The model returns the pool value together with the error.
- The migrate-shares message's other fields (pool id, shares to migrate) are carried but not read. The migration engine that consumes them is not part of this model.
