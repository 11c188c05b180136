/** Quoting an amount along a route through the router's `getAmountsOut`. */
module Quoter {
  import opened Types

  /** The router's `getAmountsOut(amountIn, path)`: for a path of two or more
      tokens, one amount per token on the path. Its pricing is left open. */
  type AmountsOut = f: (nat, seq<Address>) -> seq<nat> | forall a, p :: |p| >= 2 ==> |f(a, p)| == |p|
    witness (a: nat, p: seq<Address>) => seq(|p|, (_: int) => a)

  /** `quote`: the amount of the route's last token that `amountIn` of its
      first token buys. */
  function Quote(amountIn: nat, path: seq<Address>, amountsOut: AmountsOut): (amountOut: nat)
    ensures |path| < 2 ==> amountOut == amountIn
    ensures |path| >= 2 ==> amountOut == amountsOut(amountIn, path)[|path| - 1]
  {
    if |path| < 2 then amountIn
    else
      var amounts := amountsOut(amountIn, path);
      amounts[|amounts| - 1]
  }

  /** What a router that prices hop by hop computes: the input first, then
      for each hop the amount that hop pays for the previous amount. */
  function ChainAmounts(hop: (Address, Address, nat) -> nat, amountIn: nat, path: seq<Address>): (amounts: seq<nat>)
    ensures |amounts| == |path|
    ensures |path| >= 1 ==> amounts[0] == amountIn
    ensures forall k :: 0 <= k < |path| - 1 ==> amounts[k + 1] == hop(path[k], path[k + 1], amounts[k])
    decreases |path|
  {
    if |path| == 0 then []
    else if |path| == 1 then [amountIn]
    else [amountIn] + ChainAmounts(hop, hop(path[0], path[1], amountIn), path[1..])
  }

  /** The hop-by-hop router, as an `AmountsOut`. */
  function ChainRouter(hop: (Address, Address, nat) -> nat): AmountsOut {
    (a: nat, p: seq<Address>) => ChainAmounts(hop, a, p)
  }

  /** Swapping `amountIn` one hop at a time along `path`, feeding the output
      of each hop into the next. */
  function SwapAlong(hop: (Address, Address, nat) -> nat, amountIn: nat, path: seq<Address>): nat
    decreases |path|
  {
    if |path| < 2 then amountIn
    else SwapAlong(hop, hop(path[0], path[1], amountIn), path[1..])
  }

  lemma {:induction false} LastChainAmount(hop: (Address, Address, nat) -> nat, amountIn: nat, path: seq<Address>)
    requires |path| >= 1
    ensures ChainAmounts(hop, amountIn, path)[|path| - 1] == SwapAlong(hop, amountIn, path)
    decreases |path|
  {
    if |path| >= 2 {
      var next := hop(path[0], path[1], amountIn);
      LastChainAmount(hop, next, path[1..]);
      assert ChainAmounts(hop, amountIn, path) == [amountIn] + ChainAmounts(hop, next, path[1..]);
    }
  }

  /** With a hop-by-hop router, quoting a route equals swapping along it
      step by step; for a three-token route that is the second hop applied
      to the first hop's output. */
  lemma QuoteChainsHops(hop: (Address, Address, nat) -> nat, amountIn: nat, path: seq<Address>)
    ensures Quote(amountIn, path, ChainRouter(hop)) == SwapAlong(hop, amountIn, path)
    ensures |path| == 3 ==>
      Quote(amountIn, path, ChainRouter(hop)) == hop(path[1], path[2], hop(path[0], path[1], amountIn))
  {
    if |path| >= 2 {
      LastChainAmount(hop, amountIn, path);
    }
  }

  /** A router whose final output never decreases when the input grows. */
  ghost predicate MonotoneRouter(amountsOut: AmountsOut) {
    forall a: nat, b: nat, p: seq<Address> {:trigger amountsOut(a, p), amountsOut(b, p)} ::
      a <= b && |p| >= 2 ==> amountsOut(a, p)[|p| - 1] <= amountsOut(b, p)[|p| - 1]
  }

  /** Under a monotone router, a larger input is never quoted lower. */
  lemma QuoteMonotone(amountsOut: AmountsOut, a: nat, b: nat, path: seq<Address>)
    requires MonotoneRouter(amountsOut) && a <= b
    ensures Quote(a, path, amountsOut) <= Quote(b, path, amountsOut)
  {
  }
}
