/** The bootstrap offset of `mintSLP`: the amount of each token supplied
    as liquidity, and why the offset makes the first mint come out exact. */
module Bootstrap {

  /** The liquidity a Uniswap V2 pair locks away on its first mint. */
  const MinimumLiquidity: nat := 1000

  /** The amount of each token `mintSLP` funds and adds as liquidity: the
      requested amount, plus the locked minimum when the pair has no supply yet. */
  method MintSLPAmount(amountToken: nat, lpTotalSupply: nat) returns (amount: nat)
    ensures lpTotalSupply == 0 ==> amount == amountToken + MinimumLiquidity
    ensures lpTotalSupply != 0 ==> amount == amountToken
  {
    amount := amountToken;
    if lpTotalSupply == 0 {
      amount := amount + MinimumLiquidity;
    }
  }

  /** `s` is the integer square root of `n`, rounded down. */
  ghost predicate IsFloorSqrt(s: nat, n: nat) {
    s * s <= n < (s + 1) * (s + 1)
  }

  lemma SquareMonotone(x: nat, y: nat)
    requires x <= y
    ensures x * x <= y * y
  {
    assert x * x <= x * y <= y * y;
  }

  /** The rounded-down square root of a perfect square is its root. */
  lemma FloorSqrtOfSquare(a: nat, s: nat)
    requires IsFloorSqrt(s, a * a)
    ensures s == a
  {
    if s < a {
      SquareMonotone(s + 1, a);
      assert false;
    } else if s > a {
      SquareMonotone(a + 1, s);
      assert false;
    }
  }

  /** On an empty pair, adding `amount` of each token mints
      `sqrt(amount * amount) - MinimumLiquidity` LP tokens to the provider;
      with the bootstrap offset that is exactly the requested amount. */
  lemma FirstMintYieldsRequested(amountToken: nat, amount: nat, s: nat)
    requires amount == amountToken + MinimumLiquidity
    requires IsFloorSqrt(s, amount * amount)
    ensures s - MinimumLiquidity == amountToken
  {
    FloorSqrtOfSquare(amount, s);
  }
}
