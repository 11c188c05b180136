/** Valuing an amount of LP tokens in SUSHI and packaging the stake
    parameters (`getStakeParameters`). */
module Valuation {
  import opened Types
  import opened PathFinder
  import opened Quoter

  /** What the valuation reads from an LP pair: its two sides, its total
      supply and its two reserves. */
  datatype LpState = LpState(token0: Address, token1: Address, totalSupply: nat, reserve0: nat, reserve1: nat)

  /** The stake tuple handed to the deposit call: LP amount, the two routes,
      the SUSHI value, the beneficiary and the deadline. */
  datatype StakeParams = StakeParams(
    amountLP: nat,
    path0: seq<Address>,
    path1: seq<Address>,
    amount: nat,
    beneficiary: Address,
    deadline: nat)

  /** Seconds between the current time and the stake deadline. */
  const DeadlineWindow: nat := 60

  /** An LP holder's claim on one reserve, `reserve * amountLP / totalSupply`
      rounded down: the largest amount whose share of the supply does not
      exceed the holder's share of the reserve. */
  function ProRata(reserve: nat, amountLP: nat, totalSupply: nat): (amount: nat)
    requires totalSupply > 0
    ensures amount * totalSupply <= reserve * amountLP < (amount + 1) * totalSupply
  {
    reserve * amountLP / totalSupply
  }

  /** Holding at most the whole supply, the claim is at most the reserve;
      holding exactly the whole supply, it is the reserve. */
  lemma ProRataWithinReserve(reserve: nat, amountLP: nat, totalSupply: nat)
    requires totalSupply > 0 && amountLP <= totalSupply
    ensures ProRata(reserve, amountLP, totalSupply) <= reserve
    ensures amountLP == totalSupply ==> ProRata(reserve, amountLP, totalSupply) == reserve
  {
    var amount := ProRata(reserve, amountLP, totalSupply);
    assert reserve * amountLP <= reserve * totalSupply by {
      MulLeftMonotone(reserve, amountLP, totalSupply);
    }
    if amount > reserve {
      MulLeftMonotone(totalSupply, reserve + 1, amount);
      assert false;
    }
    if amountLP == totalSupply && amount < reserve {
      assert false;
    }
  }

  /** More LP tokens never give a smaller claim on a reserve. */
  lemma ProRataMonotone(reserve: nat, a: nat, b: nat, totalSupply: nat)
    requires totalSupply > 0 && a <= b
    ensures ProRata(reserve, a, totalSupply) <= ProRata(reserve, b, totalSupply)
  {
    var x, y := ProRata(reserve, a, totalSupply), ProRata(reserve, b, totalSupply);
    MulLeftMonotone(reserve, a, b);
    if x > y {
      MulLeftMonotone(totalSupply, y + 1, x);
      assert false;
    }
  }

  lemma MulLeftMonotone(k: nat, x: nat, y: nat)
    requires x <= y
    ensures k * x <= k * y
  {
  }

  /** `getStakeParameters`: split `amountLP` into its claims on both
      reserves, quote each along its route to SUSHI, sum the quotes, and
      set the deadline one window after `now`. */
  function StakeParameters(
    pairs: seq<Pair>, sushi: Address, router: AmountsOut,
    lp: LpState, amountLP: nat, beneficiary: Address, now: nat): (r: Result<StakeParams>)
    ensures r.Ok? <==>
      && lp.totalSupply > 0
      && PathToSushi(pairs, sushi, lp.token0).Ok?
      && PathToSushi(pairs, sushi, lp.token1).Ok?
    ensures lp.totalSupply == 0 ==> r == Err(DivisionByZero)
    ensures lp.totalSupply > 0 && r.Err? ==> r.error == RouteNotFound
    ensures r.Ok? ==>
      && r.value.amountLP == amountLP
      && r.value.beneficiary == beneficiary
      && r.value.deadline == now + DeadlineWindow
      && r.value.deadline > now
      && r.value.path0 == PathToSushi(pairs, sushi, lp.token0).value
      && r.value.path1 == PathToSushi(pairs, sushi, lp.token1).value
      && IsRouteToSushi(pairs, sushi, lp.token0, r.value.path0)
      && IsRouteToSushi(pairs, sushi, lp.token1, r.value.path1)
    ensures r.Ok? ==>
      r.value.amount == Quote(ProRata(lp.reserve0, amountLP, lp.totalSupply), r.value.path0, router)
                      + Quote(ProRata(lp.reserve1, amountLP, lp.totalSupply), r.value.path1, router)
  {
    if lp.totalSupply == 0 then Err(DivisionByZero)
    else
      var amount0 := ProRata(lp.reserve0, amountLP, lp.totalSupply);
      var amount1 := ProRata(lp.reserve1, amountLP, lp.totalSupply);
      match PathToSushi(pairs, sushi, lp.token0)
      case Err(e) => Err(e)
      case Ok(path0) =>
        match PathToSushi(pairs, sushi, lp.token1)
        case Err(e) => Err(e)
        case Ok(path1) =>
          var amount := Quote(amount0, path0, router) + Quote(amount1, path1, router);
          Ok(StakeParams(amountLP, path0, path1, amount, beneficiary, now + DeadlineWindow))
  }

  /** Whichever side of the pair is SUSHI itself has the route `[sushi]`
      and is valued at exactly its pro-rata claim, so the value is at least
      that claim. */
  lemma SushiSideValuedAtClaim(
    pairs: seq<Pair>, sushi: Address, router: AmountsOut,
    lp: LpState, amountLP: nat, beneficiary: Address, now: nat)
    requires lp.totalSupply > 0
    requires StakeParameters(pairs, sushi, router, lp, amountLP, beneficiary, now).Ok?
    ensures var p := StakeParameters(pairs, sushi, router, lp, amountLP, beneficiary, now).value;
      lp.token0 == sushi ==>
        && p.path0 == [sushi]
        && p.amount == ProRata(lp.reserve0, amountLP, lp.totalSupply)
                       + Quote(ProRata(lp.reserve1, amountLP, lp.totalSupply), p.path1, router)
        && p.amount >= ProRata(lp.reserve0, amountLP, lp.totalSupply)
    ensures var p := StakeParameters(pairs, sushi, router, lp, amountLP, beneficiary, now).value;
      lp.token1 == sushi ==>
        && p.path1 == [sushi]
        && p.amount == Quote(ProRata(lp.reserve0, amountLP, lp.totalSupply), p.path0, router)
                       + ProRata(lp.reserve1, amountLP, lp.totalSupply)
        && p.amount >= ProRata(lp.reserve1, amountLP, lp.totalSupply)
  {
  }

  /** Under a monotone router, staking more LP tokens is never valued lower:
      both claims grow with the LP amount and so do both quotes. */
  lemma StakeValueMonotone(
    pairs: seq<Pair>, sushi: Address, router: AmountsOut,
    lp: LpState, a: nat, b: nat, beneficiary: Address, now: nat)
    requires MonotoneRouter(router) && a <= b
    requires StakeParameters(pairs, sushi, router, lp, a, beneficiary, now).Ok?
    ensures StakeParameters(pairs, sushi, router, lp, b, beneficiary, now).Ok?
    ensures StakeParameters(pairs, sushi, router, lp, a, beneficiary, now).value.amount
         <= StakeParameters(pairs, sushi, router, lp, b, beneficiary, now).value.amount
  {
    var path0 := PathToSushi(pairs, sushi, lp.token0).value;
    var path1 := PathToSushi(pairs, sushi, lp.token1).value;
    ProRataMonotone(lp.reserve0, a, b, lp.totalSupply);
    ProRataMonotone(lp.reserve1, a, b, lp.totalSupply);
    QuoteMonotone(router, ProRata(lp.reserve0, a, lp.totalSupply), ProRata(lp.reserve0, b, lp.totalSupply), path0);
    QuoteMonotone(router, ProRata(lp.reserve1, a, lp.totalSupply), ProRata(lp.reserve1, b, lp.totalSupply), path1);
  }

  /** `getStakeParameters` as the harness runs it: the division first, then
      the two routes, then the two quotes. */
  method GetStakeParameters(
    pairs: seq<Pair>, sushi: Address, router: AmountsOut,
    lp: LpState, amountLP: nat, beneficiary: Address, now: nat) returns (r: Result<StakeParams>)
    ensures r == StakeParameters(pairs, sushi, router, lp, amountLP, beneficiary, now)
  {
    if lp.totalSupply == 0 {
      return Err(DivisionByZero);
    }
    var amount0 := ProRata(lp.reserve0, amountLP, lp.totalSupply);
    var amount1 := ProRata(lp.reserve1, amountLP, lp.totalSupply);
    var path0 := FindPathToSushi(pairs, sushi, lp.token0);
    if path0.Err? {
      return Err(path0.error);
    }
    var path1 := FindPathToSushi(pairs, sushi, lp.token1);
    if path1.Err? {
      return Err(path1.error);
    }
    var amount := Quote(amount0, path0.value, router) + Quote(amount1, path1.value, router);
    return Ok(StakeParams(amountLP, path0.value, path1.value, amount, beneficiary, now + DeadlineWindow));
  }
}
