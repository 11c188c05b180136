# SUSHI valuation helpers of the FlashStrategySushiSwap test harness

This project is a Dafny model of the valuation engine in the test harness of
the FlashStrategySushiSwap strategy. That harness wraps a SushiSwap LP
position into a farming LP share token and stakes it with the FlashStake
protocol. Before staking, the harness values LP tokens in SUSHI, the
reference token. The model covers these parts of that engine:

- **Path finder** (`findPathToSushi`, module `PathFinder`). It looks for a
  route from a token to SUSHI over the factory's flat list of pairs. The
  route is `[sushi]` when the token is SUSHI, and `[token, sushi]` when a
  direct pair exists. Otherwise it is `[token, bridge, sushi]`, where
  `bridge` comes from the first pair, in enumeration order, that contains
  the token and whose other side has a pair with SUSHI. If no such pair
  exists, the finder fails. `PathToSushi` is the specification function.
  `FindPathToSushi` is the indexed scan with early return, proved equal to
  it.
- **Quoter** (`quote`, module `Quoter`). A route of fewer than two tokens
  returns the input unchanged. A longer route returns the last entry of the
  router's `getAmountsOut`. The router stays uninterpreted: it is any
  function that returns one amount per token on the path. A hop-by-hop
  router is modelled too, to state how quotes compose.
- **Share valuation** (`getStakeParameters`, module `Valuation`). An LP
  amount is split into its rounded-down pro-rata claims on both reserves.
  Each claim is quoted along its route to SUSHI and the two quotes are
  summed. The result is packaged with the beneficiary and a deadline 60
  seconds after `now`. `StakeParameters` is the specification function.
  `GetStakeParameters` runs the same steps through the path-finder method.
- **Fee arithmetic** (`fee`, module `Fees`). `fee(a, bps)` is
  `floor(a * bps / 10000)`. The staked amount is split between what the
  strategy keeps and what the fee vault receives, as the single-account
  staking scenario checks.
- **Bootstrap offset** (`mintSLP`, module `Bootstrap`). When the LP total
  supply is zero, 1000 is added to the token amount before liquidity is
  added.

Chain state is passed in as parameters:

- the factory's list of pairs (`seq<Pair>`);
- the SUSHI address;
- the router's `getAmountsOut`;
- the pair's tokens, total supply and reserves (`LpState`);
- the current time.

`getPair` is true when some registered pair joins the two tokens, in
either order. Addresses are compared by identity. The harness's
case-insensitive `addressEquals` helper is not part of this model.
Amounts are unbounded naturals. This matches ethers' BigNumber, which does
not wrap. Its `div` rounds toward zero, which is the same as rounding down
for these non-negative operands. A `div` by a zero total supply throws. The
model returns `Err(DivisionByZero)` for that case, before any route is
looked up, in the harness's own order. The chai `assert(false, ...)` at the
end of the scan becomes `Err(RouteNotFound)`.

## Model

| member | source | states |
|---|---|---|
| `PathFinder.HasPair` | test/FlashStrategySushiSwap.test.ts:81-82 | `getPair(a, b)` is not the zero address exactly when some enumerated pair joins `a` and `b`. This encodes the assumption that `getPair` agrees with the `allPairs` enumeration in both orders: the result is the same with `a` and `b` swapped, and `a` is then a side of some enumerated pair. |
| `PathFinder.Counterpart` | test/FlashStrategySushiSwap.test.ts:88-89 | The result is present exactly when `tokenIn` is one side of the pair. It is then the other side, and the pair joins the two. |
| `PathFinder.BridgeAt` | test/FlashStrategySushiSwap.test.ts:88-92 | Pair `i` offers a bridge if and only if it contains `tokenIn` and its other side has a pair with SUSHI. The bridge is then exactly that other side of `pairs[i]`, so pair `i` joins it with `tokenIn`. |
| `PathFinder.ScanBridges` | test/FlashStrategySushiSwap.test.ts:84-94 | Every bridge the scan returns has a pair with `tokenIn` and a pair with SUSHI. |
| `PathFinder.PathToSushi` | test/FlashStrategySushiSwap.test.ts:77-99 | Any route returned starts at `tokenIn`, ends at SUSHI, has a pair for every hop and has 1 to 3 tokens. SUSHI itself gives exactly `[sushi]`. Otherwise the route is `[tokenIn, sushi]` if and only if a direct pair exists, and a 3-token route is returned only when there is no direct pair. The only failure is RouteNotFound. |
| `PathFinder.ScanFindsFirstBridge` | test/FlashStrategySushiSwap.test.ts:84-94 | The scan from index `from` yields `bridge` if and only if some pair at or after `from` offers `bridge` and no earlier pair in that range offers any bridge. |
| `PathFinder.ScanFailsWithoutBridge` | test/FlashStrategySushiSwap.test.ts:84-95 | The scan finds nothing if and only if no pair in the range offers a bridge. |
| `PathFinder.BridgeRouteIsFirstFound` | test/FlashStrategySushiSwap.test.ts:83-92 | With no direct pair, the route is `[tokenIn, bridge, sushi]` if and only if `bridge` comes from the first pair, in enumeration order, that offers a bridge. |
| `PathFinder.RouteNotFoundExactly` | test/FlashStrategySushiSwap.test.ts:82-95 | The finder fails if and only if `tokenIn` is not SUSHI, it has no direct pair with SUSHI, and no pair offers a bridge. |
| `PathFinder.FindPathToSushi` | test/FlashStrategySushiSwap.test.ts:77-99 | The indexed scan with early return gives exactly `PathToSushi`, so it has all of that function's properties. |
| `Quoter.Quote` | test/FlashStrategySushiSwap.test.ts:101-105 | A route shorter than 2 returns `amountIn` unchanged. A longer route returns the entry of `getAmountsOut` for the route's last token. |
| `Quoter.ChainAmounts` | test/FlashStrategySushiSwap.test.ts:103 | A hop-by-hop router returns one amount per token. The first amount is the input, and each later amount is its hop's price of the previous one. |
| `Quoter.QuoteChainsHops` | test/FlashStrategySushiSwap.test.ts:101-105 | With a hop-by-hop router, the quote equals swapping step by step along the route. For `[A, B, C]` it is `hopBC(hopAB(amountIn))`. |
| `Quoter.QuoteMonotone` | test/FlashStrategySushiSwap.test.ts:101-105 | With a router whose output never drops as its input grows, a larger input is never quoted lower. |
| `Valuation.ProRata` | test/FlashStrategySushiSwap.test.ts:111-112 | The claim is the rounded-down quotient: `amount * totalSupply <= reserve * amountLP < (amount + 1) * totalSupply`. |
| `Valuation.ProRataWithinReserve` | test/FlashStrategySushiSwap.test.ts:111-112 | If `amountLP <= totalSupply`, the claim is at most the reserve. It equals the reserve when `amountLP` is the whole supply. |
| `Valuation.ProRataMonotone` | test/FlashStrategySushiSwap.test.ts:111-112 | The claim never decreases as `amountLP` grows. |
| `Valuation.StakeParameters` | test/FlashStrategySushiSwap.test.ts:107-119 | The result succeeds if and only if the total supply is positive and both tokens have a route. A zero supply gives DivisionByZero, and a missing route gives RouteNotFound. On success the tuple carries `amountLP` and the beneficiary. Its paths are exactly the routes the finder returns for token0 and token1. Its value is the quote of token0's rounded-down claim along its route plus the quote of token1's claim along its route. Its deadline is `now + 60`, strictly after `now`. |
| `Valuation.SushiSideValuedAtClaim` | test/FlashStrategySushiSwap.test.ts:111-116 | Whichever of token0 or token1 is SUSHI has the route `[sushi]`. That side counts at exactly its pro-rata claim, so the value is that claim plus the quote of the other side, and at least that claim. |
| `Valuation.StakeValueMonotone` | test/FlashStrategySushiSwap.test.ts:111-116 | With a monotone router, a larger LP amount also gets stake parameters, and its value is never lower. |
| `Valuation.GetStakeParameters` | test/FlashStrategySushiSwap.test.ts:107-119 | Dividing first, then finding both routes with the scan, then quoting gives exactly `StakeParameters`. |
| `Fees.Fee` | test/FlashStrategySushiSwap.test.ts:24 | The fee is `floor(amount * feeBps / 10000)`, characterised by `fee * 10000 <= amount * feeBps < (fee + 1) * 10000`. |
| `Fees.FeeAtMostAmount` | test/FlashStrategySushiSwap.test.ts:24 | If `feeBps <= 10000`, the fee is at most the amount. |
| `Fees.FeeMonotone` | test/FlashStrategySushiSwap.test.ts:24 | A larger amount never pays a smaller fee. |
| `Fees.SplitStake` | test/FlashStrategySushiSwap.test.ts:175-179 | The strategy keeps `amount - fee` and the vault receives the fee. The two sum to the amount, and the kept part is at least `amount * (10000 - feeBps) / 10000`. |
| `Fees.StakeSplitConserves` | test/FlashStrategySushiSwap.test.ts:175-179 | At 25 bps, the kept part plus the vault's part equals the staked amount. The vault gets `amount * 25 / 10000`, and the strategy keeps at least 99.75%. |
| `Bootstrap.MintSLPAmount` | test/FlashStrategySushiSwap.test.ts:124-126 | With a zero LP supply the amount used is `amountToken + 1000`. Otherwise it is `amountToken`. |
| `Bootstrap.FirstMintYieldsRequested` | test/FlashStrategySushiSwap.test.ts:124-131 | On an empty pair funded with `amountToken + 1000` of each token, the floor square root of the product, minus the 1000 locked, is exactly `amountToken`. |

## Left out

- Deployment and wiring are not modelled. This covers tokens, SushiSwap, FlashStake, the SushiBar vault, the factories and strategy registration. All of it is chain I/O.
- `Quoter.Quote` keeps the router's constant-product pricing uninterpreted. `getAmountsOut` may be any function that returns one amount per token on the path. Its reverts, for example on a missing pair, are not modelled.
- `Bootstrap.FirstMintYieldsRequested` takes the pair's first-mint rule as a hypothesis. That rule is: the floor square root of the product of the two amounts, minus 1000 locked. The pair contract is not part of this model.
- The side effects of `mintSLP` are not modelled: transfers, WETH wrapping, `addLiquidity`, approvals, the balance read and the deposit call. Only the bootstrap reassignment is. The LP amount that `getStakeParameters` receives is a parameter.
- Reward emission, auto-compounding and the balance checks that hold only within `DELTA` are not modelled. They depend on block progression and on contracts not part of this model. The same goes for the approximate `fToken` mint check.
- The FarmingLPToken, FlashStrategySushiSwap, the factory and FeeVault contracts are not part of this model. This includes the share ledger, the strategy adapter and the strategy registry.
- Async sequencing, the hardhat and chai framework, and `now()` are not modelled. The current time is a parameter.
