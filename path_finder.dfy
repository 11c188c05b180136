/** Route discovery from a token to SUSHI over the AMM factory's flat list of
    pairs: the token itself, a direct pair, or one bridge token found by a
    single scan of the pairs in enumeration order. */
module PathFinder {
  import opened Types

  /** A pair as the factory enumerates it (`allPairs(i)`), with its two sides
      in the pair's own order. */
  datatype Pair = Pair(token0: Address, token1: Address)

  /** `p` pools `a` with `b`, in either order. */
  predicate Joins(p: Pair, a: Address, b: Address) {
    (p.token0 == a && p.token1 == b) || (p.token0 == b && p.token1 == a)
  }

  /** The factory's `getPair(a, b)` is not the zero address: some registered
      pair pools `a` with `b` (the factory records each pair under both orders). */
  predicate HasPair(pairs: seq<Pair>, a: Address, b: Address): (r: bool)
    ensures r <==> exists i :: 0 <= i < |pairs| && Joins(pairs[i], b, a)
    ensures r ==> exists i :: 0 <= i < |pairs| && (pairs[i].token0 == a || pairs[i].token1 == a)
  {
    exists i :: 0 <= i < |pairs| && Joins(pairs[i], a, b)
  }

  /** The other side of `p` when `tokenIn` is one of its sides: token1 when
      `tokenIn` is token0, token0 otherwise. */
  function Counterpart(p: Pair, tokenIn: Address): (r: Option<Address>)
    ensures r.Some? <==> tokenIn == p.token0 || tokenIn == p.token1
    ensures r.Some? ==> Joins(p, tokenIn, r.value)
  {
    if tokenIn == p.token0 then Some(p.token1)
    else if tokenIn == p.token1 then Some(p.token0)
    else None
  }

  /** The bridge that pair `i` offers: its other side, when it contains
      `tokenIn` and that other side has a pair with `sushi`. */
  function BridgeAt(pairs: seq<Pair>, sushi: Address, tokenIn: Address, i: nat): (r: Option<Address>)
    requires i < |pairs|
    ensures r.Some? <==>
      Counterpart(pairs[i], tokenIn).Some? && HasPair(pairs, Counterpart(pairs[i], tokenIn).value, sushi)
    ensures r.Some? ==> r == Counterpart(pairs[i], tokenIn) && Joins(pairs[i], tokenIn, r.value)
    ensures r.Some? ==> HasPair(pairs, tokenIn, r.value) && HasPair(pairs, r.value, sushi)
  {
    match Counterpart(pairs[i], tokenIn)
    case None => None
    case Some(bridge) =>
      assert Joins(pairs[i], tokenIn, bridge);
      if HasPair(pairs, bridge, sushi) then Some(bridge) else None
  }

  /** The scan of pairs `from`, `from + 1`, ...: the first bridge found. */
  function ScanBridges(pairs: seq<Pair>, sushi: Address, tokenIn: Address, from: nat): (r: Option<Address>)
    requires from <= |pairs|
    ensures r.Some? ==> HasPair(pairs, tokenIn, r.value) && HasPair(pairs, r.value, sushi)
    decreases |pairs| - from
  {
    if from == |pairs| then None
    else if BridgeAt(pairs, sushi, tokenIn, from).Some? then BridgeAt(pairs, sushi, tokenIn, from)
    else ScanBridges(pairs, sushi, tokenIn, from + 1)
  }

  /** `route` leads from `tokenIn` to `sushi` and each of its hops has a pair. */
  predicate IsRouteToSushi(pairs: seq<Pair>, sushi: Address, tokenIn: Address, route: seq<Address>) {
    && |route| >= 1
    && route[0] == tokenIn
    && route[|route| - 1] == sushi
    && forall k :: 0 <= k < |route| - 1 ==> HasPair(pairs, route[k], route[k + 1])
  }

  /** The route `findPathToSushi` returns for `tokenIn`, or RouteNotFound. */
  function PathToSushi(pairs: seq<Pair>, sushi: Address, tokenIn: Address): (r: Result<seq<Address>>)
    ensures r.Ok? ==> IsRouteToSushi(pairs, sushi, tokenIn, r.value) && 1 <= |r.value| <= 3
    ensures r.Err? ==> r.error == RouteNotFound
    ensures tokenIn == sushi ==> r == Ok([sushi])
    ensures tokenIn != sushi ==> (HasPair(pairs, tokenIn, sushi) <==> r == Ok([tokenIn, sushi]))
    ensures r.Ok? && |r.value| == 3 ==> !HasPair(pairs, tokenIn, sushi)
  {
    if tokenIn == sushi then Ok([sushi])
    else if !HasPair(pairs, tokenIn, sushi) then
      match ScanBridges(pairs, sushi, tokenIn, 0)
      case Some(bridge) => Ok([tokenIn, bridge, sushi])
      case None => Err(RouteNotFound)
    else Ok([tokenIn, sushi])
  }

  /** The scan from `from` yields `bridge` exactly when some pair at or after
      `from` offers `bridge` and no pair between `from` and it offers any. */
  lemma {:induction false} ScanFindsFirstBridge(pairs: seq<Pair>, sushi: Address, tokenIn: Address, from: nat, bridge: Address)
    requires from <= |pairs|
    ensures ScanBridges(pairs, sushi, tokenIn, from) == Some(bridge) <==>
      exists i :: from <= i < |pairs| && BridgeAt(pairs, sushi, tokenIn, i) == Some(bridge) &&
        forall j :: from <= j < i ==> BridgeAt(pairs, sushi, tokenIn, j).None?
    decreases |pairs| - from
  {
    if from < |pairs| {
      ScanFindsFirstBridge(pairs, sushi, tokenIn, from + 1, bridge);
      if BridgeAt(pairs, sushi, tokenIn, from).None? {
        if exists i :: from <= i < |pairs| && BridgeAt(pairs, sushi, tokenIn, i) == Some(bridge) &&
            forall j :: from <= j < i ==> BridgeAt(pairs, sushi, tokenIn, j).None? {
          var i :| from <= i < |pairs| && BridgeAt(pairs, sushi, tokenIn, i) == Some(bridge) &&
            forall j :: from <= j < i ==> BridgeAt(pairs, sushi, tokenIn, j).None?;
          assert from + 1 <= i;
        }
      } else {
        if exists i :: from <= i < |pairs| && BridgeAt(pairs, sushi, tokenIn, i) == Some(bridge) &&
            forall j :: from <= j < i ==> BridgeAt(pairs, sushi, tokenIn, j).None? {
          var i :| from <= i < |pairs| && BridgeAt(pairs, sushi, tokenIn, i) == Some(bridge) &&
            forall j :: from <= j < i ==> BridgeAt(pairs, sushi, tokenIn, j).None?;
          assert i == from;
        }
      }
    }
  }

  /** The scan from `from` finds nothing exactly when no pair at or after
      `from` offers a bridge. */
  lemma {:induction false} ScanFailsWithoutBridge(pairs: seq<Pair>, sushi: Address, tokenIn: Address, from: nat)
    requires from <= |pairs|
    ensures ScanBridges(pairs, sushi, tokenIn, from).None? <==>
      forall j :: from <= j < |pairs| ==> BridgeAt(pairs, sushi, tokenIn, j).None?
    decreases |pairs| - from
  {
    if from < |pairs| {
      ScanFailsWithoutBridge(pairs, sushi, tokenIn, from + 1);
    }
  }

  /** Without a direct pair, the route is `[tokenIn, bridge, sushi]` exactly
      when `bridge` is offered by the first pair, in enumeration order, that
      offers a bridge at all. */
  lemma BridgeRouteIsFirstFound(pairs: seq<Pair>, sushi: Address, tokenIn: Address, bridge: Address)
    requires tokenIn != sushi && !HasPair(pairs, tokenIn, sushi)
    ensures PathToSushi(pairs, sushi, tokenIn) == Ok([tokenIn, bridge, sushi]) <==>
      exists i :: 0 <= i < |pairs| && BridgeAt(pairs, sushi, tokenIn, i) == Some(bridge) &&
        forall j :: 0 <= j < i ==> BridgeAt(pairs, sushi, tokenIn, j).None?
  {
    ScanFindsFirstBridge(pairs, sushi, tokenIn, 0, bridge);
  }

  /** The finder fails exactly when `tokenIn` is not SUSHI, has no direct
      pair with it, and no registered pair offers a bridge. */
  lemma RouteNotFoundExactly(pairs: seq<Pair>, sushi: Address, tokenIn: Address)
    ensures PathToSushi(pairs, sushi, tokenIn).Err? <==>
      && tokenIn != sushi
      && !HasPair(pairs, tokenIn, sushi)
      && forall j :: 0 <= j < |pairs| ==> BridgeAt(pairs, sushi, tokenIn, j).None?
  {
    ScanFailsWithoutBridge(pairs, sushi, tokenIn, 0);
  }

  /** `findPathToSushi`: the reference token itself, else the direct pair,
      else the first bridge of an indexed scan over all pairs, else failure. */
  method FindPathToSushi(pairs: seq<Pair>, sushi: Address, tokenIn: Address) returns (r: Result<seq<Address>>)
    ensures r == PathToSushi(pairs, sushi, tokenIn)
  {
    if tokenIn == sushi {
      return Ok([sushi]);
    }
    if !HasPair(pairs, tokenIn, sushi) {
      var i := 0;
      while i < |pairs|
        invariant 0 <= i <= |pairs|
        invariant ScanBridges(pairs, sushi, tokenIn, i) == ScanBridges(pairs, sushi, tokenIn, 0)
      {
        var p := pairs[i];
        if tokenIn == p.token0 || tokenIn == p.token1 {
          var bridge := if tokenIn == p.token0 then p.token1 else p.token0;
          if HasPair(pairs, bridge, sushi) {
            return Ok([tokenIn, bridge, sushi]);
          }
        }
        i := i + 1;
      }
      return Err(RouteNotFound);
    } else {
      return Ok([tokenIn, sushi]);
    }
  }
}
