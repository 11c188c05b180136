/** The staking fee in basis points and how a stake is split between the
    strategy and the fee vault. */
module Fees {

  /** Basis points in a whole. */
  const BpsDenominator: nat := 10000

  /** The fee rate, in basis points, that the staking engine charges. */
  const StakeFeeBps: nat := 25

  /** `fee(amount, feeBPS)`: `amount * feeBps / 10000`, rounded down. */
  function Fee(amount: nat, feeBps: nat): (fee: nat)
    ensures fee * BpsDenominator <= amount * feeBps < (fee + 1) * BpsDenominator
  {
    amount * feeBps / BpsDenominator
  }

  /** A fee rate of at most one whole never takes more than the amount. */
  lemma FeeAtMostAmount(amount: nat, feeBps: nat)
    requires feeBps <= BpsDenominator
    ensures Fee(amount, feeBps) <= amount
  {
    var fee := Fee(amount, feeBps);
    assert amount * feeBps <= amount * BpsDenominator;
    if fee > amount {
      assert false;
    }
  }

  /** A larger amount never pays a smaller fee. */
  lemma FeeMonotone(a: nat, b: nat, feeBps: nat)
    requires a <= b
    ensures Fee(a, feeBps) <= Fee(b, feeBps)
  {
    var x, y := Fee(a, feeBps), Fee(b, feeBps);
    assert a * feeBps <= b * feeBps;
    if x > y {
      assert false;
    }
  }

  /** Where a staked amount goes: what the strategy keeps and what the fee
      vault receives. */
  datatype FeeSplit = FeeSplit(kept: nat, toVault: nat)

  /** The strategy keeps `amount - fee(amount, feeBps)` and the fee vault
      receives `fee(amount, feeBps)`: nothing is created or lost, and the
      strategy keeps at least the amount net of the fee rate. */
  function SplitStake(amount: nat, feeBps: nat): (s: FeeSplit)
    requires feeBps <= BpsDenominator
    ensures s.kept + s.toVault == amount
    ensures s.toVault == Fee(amount, feeBps)
    ensures s.kept * BpsDenominator >= amount * (BpsDenominator - feeBps)
  {
    FeeAtMostAmount(amount, feeBps);
    var fee := Fee(amount, feeBps);
    assert (amount - fee) * BpsDenominator == amount * BpsDenominator - fee * BpsDenominator;
    assert amount * (BpsDenominator - feeBps) == amount * BpsDenominator - amount * feeBps;
    FeeSplit(amount - fee, fee)
  }

  /** The split the single-account staking scenario checks: at 25 basis
      points the strategy keeps at least 99.75% of the stake and the vault
      receives the rest. */
  lemma StakeSplitConserves(amount: nat)
    ensures SplitStake(amount, StakeFeeBps).kept + SplitStake(amount, StakeFeeBps).toVault == amount
    ensures SplitStake(amount, StakeFeeBps).toVault == amount * 25 / 10000
    ensures SplitStake(amount, StakeFeeBps).kept * 10000 >= amount * 9975
  {
  }
}
