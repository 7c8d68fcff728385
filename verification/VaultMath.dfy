/** Share and asset conversions of a vault: price_api/vault/resolver.py with the two adapters. Both
    directions are floor divisions, so what they lose has to be bounded. */
module VaultMath {
  import opened Options
  import opened Arithmetic

  const MAX_UINT256 := 0xFFFF_FFFF_FFFF_FFFF_FFFF_FFFF_FFFF_FFFF_FFFF_FFFF_FFFF_FFFF_FFFF_FFFF_FFFF_FFFF

  function Pow10(n: nat): (p: int)
    ensures p >= 1
  {
    if n == 0 then 1 else 10 * Pow10(n - 1)
  }

  /** The assets of one share unit, and the share unit. */
  datatype VaultInfo = VaultInfo(assetsPerShareUnit: nat, shareDecimals: nat)
  {
    function ShareUnit(): (unit: int)
      ensures unit >= 1
    {
      Pow10(shareDecimals)
    }

    function SharesToAssets(shares: nat): nat {
      FloorMul(shares, assetsPerShareUnit, ShareUnit())
    }

    /** A zero rate is refused. */
    function AssetsToShares(assets: nat): Option<nat> {
      if assetsPerShareUnit == 0 then None else Some(FloorMul(assets, ShareUnit(), assetsPerShareUnit))
    }
  }

  function FloorMul(x: nat, up: nat, down: nat): (r: nat)
    requires down > 0
    ensures r * down <= x * up < r * down + down
  {
    DivBounds(x * up, down);
    x * up / down
  }

  function CeilDiv(x: nat, d: nat): nat
    requires d > 0
  {
    DivBounds(x + d - 1, d);
    (x + d - 1) / d
  }

  /** Going there and back never gains, and loses at most (up - 1) / down rounded up: by less than
      one unit of each rounding. */
  lemma RoundTripLoss(x: nat, up: nat, down: nat)
    requires up > 0 && down > 0
    ensures var back := FloorMul(FloorMul(x, up, down), down, up);
            back <= x <= back + CeilDiv(down - 1, up)
  {
    var there := FloorMul(x, up, down);
    var back := FloorMul(there, down, up);
    assert back * up <= there * down <= x * up;
    MulLess(back, x + 1, up) by {
      assert (x + 1) * up == x * up + up;
    }
    assert (x - back) * up <= down - 1 + up - 1 by {
      assert (x - back) * up == x * up - back * up;
      assert x * up <= there * down + down - 1;
      assert there * down <= back * up + up - 1;
    }
    FloorIsLargest(x - back, down - 1 + up - 1, up);
  }

  lemma FloorMulMonotone(x: nat, y: nat, up: nat, down: nat)
    requires down > 0 && x <= y
    ensures FloorMul(x, up, down) <= FloorMul(y, up, down)
  {
    var a, b := FloorMul(x, up, down), FloorMul(y, up, down);
    MulMonotone(x, y, up);
    MulLess(a, b + 1, down) by {
      assert (b + 1) * down == b * down + down;
    }
  }

  /** Splitting an amount never gains, and loses at most one unit. */
  lemma FloorMulSplits(x: nat, y: nat, up: nat, down: nat)
    requires down > 0
    ensures FloorMul(x, up, down) + FloorMul(y, up, down)
            <= FloorMul(x + y, up, down)
            <= FloorMul(x, up, down) + FloorMul(y, up, down) + 1
  {
    var a, b, c := FloorMul(x, up, down), FloorMul(y, up, down), FloorMul(x + y, up, down);
    assert (x + y) * up == x * up + y * up;
    assert (a + b) * down == a * down + b * down;
    MulLess(a + b, c + 1, down) by {
      assert (c + 1) * down == c * down + down;
    }
    MulLess(c, a + b + 2, down) by {
      assert (a + b + 2) * down == a * down + b * down + 2 * down;
    }
  }

  lemma FloorMulExact(up: nat, down: nat)
    requires down > 0
    ensures FloorMul(down, up, down) == up
  {
    var r := FloorMul(down, up, down);
    assert down * up == up * down;
    MulLess(r, up + 1, down) by {
      assert (up + 1) * down == up * down + down;
    }
    MulLess(up, r + 1, down) by {
      assert (r + 1) * down == r * down + down;
    }
  }

  lemma CeilDivSmall(x: nat, d: nat)
    requires d > 0
    ensures x <= d ==> CeilDiv(x, d) <= 1
    ensures CeilDiv(x, d) <= CeilDiv(x + 1, d)
  {
    FloorIsLargest(CeilDiv(x, d), x + 1 + d - 1, d);
    if x <= d {
      var q := CeilDiv(x, d);
      MulLess(q, 2, d);
    }
  }

  /** The conversions of a vault with a positive rate A per share unit S. Shares to assets to shares
      never gains and loses at most ceil((S - 1) / A), at most 1 when A >= S; the other way round
      never gains and loses at most ceil((A - 1) / S). Both are monotone, splitting never gains, and
      the rate itself converts exactly. */
  lemma ConversionsRoundDown(v: VaultInfo, x: nat, y: nat)
    requires v.assetsPerShareUnit > 0
    ensures var a, s := v.assetsPerShareUnit, v.ShareUnit();
            var toAssets := (n: nat) => v.SharesToAssets(n);
            var toShares := (n: nat) => v.AssetsToShares(n).GetOr(0);
            && toShares(toAssets(x)) <= x <= toShares(toAssets(x)) + CeilDiv(s - 1, a)
            && toAssets(toShares(x)) <= x <= toAssets(toShares(x)) + CeilDiv(a - 1, s)
            && (a >= s ==> x - toShares(toAssets(x)) <= 1)
            && (x <= y ==> toAssets(x) <= toAssets(y) && toShares(x) <= toShares(y))
            && toAssets(x) + toAssets(y) <= toAssets(x + y) <= toAssets(x) + toAssets(y) + 1
            && toAssets(s) == a && toShares(a) == s
  {
    var a, s := v.assetsPerShareUnit, v.ShareUnit();
    RoundTripLoss(x, a, s);
    RoundTripLoss(x, s, a);
    if x <= y {
      FloorMulMonotone(x, y, a, s);
      FloorMulMonotone(x, y, s, a);
    }
    FloorMulSplits(x, y, a, s);
    FloorMulExact(a, s);
    FloorMulExact(s, a);
    CeilDivSmall(s - 1, a);
  }

  /** The bound is attained: at rate 1 the last share below the unit is lost entirely. */
  lemma LossIsAttained(d: nat)
    ensures var v := VaultInfo(1, d);
            var x := v.ShareUnit() - 1;
            x - v.AssetsToShares(v.SharesToAssets(x)).value == CeilDiv(v.ShareUnit() - 1, 1)
  {
    var s := Pow10(d);
    DivBounds((s - 1) * 1, s);
    assert FloorMul(s - 1, 1, s) == 0;
    assert FloorMul(0, s, 1) == 0;
  }
}
