/**
 * Dividing the available space among panels by weight while respecting minimums, and
 * dragging the border between two neighbours. Lengths are real numbers here.
 */
module FlexLayout {

  /** The machine epsilon of a 32-bit float, two to the power of minus 23. */
  const EPSILON: real := 1.0 / 8388608.0

  function Max(a: real, b: real): real {
    if a < b then b else a
  }

  function Min(a: real, b: real): real {
    if a < b then a else b
  }

  function Sum(xs: seq<real>): real {
    if xs == [] then 0.0 else Sum(xs[..|xs| - 1]) + xs[|xs| - 1]
  }

  predicate NonNegative(xs: seq<real>) {
    forall i :: 0 <= i < |xs| ==> xs[i] >= 0.0
  }

  predicate Positive(xs: seq<real>) {
    forall i :: 0 <= i < |xs| ==> xs[i] > 0.0
  }

  predicate AtLeast(xs: seq<real>, ys: seq<real>) {
    |xs| == |ys| && forall i :: 0 <= i < |xs| ==> xs[i] >= ys[i]
  }

  // ---------------------------------------------------------------------------
  // The specification
  // ---------------------------------------------------------------------------

  predicate NeedsScaling(minimums: seq<real>, available: real) {
    Sum(minimums) > available && Sum(minimums) > EPSILON
  }

  function By(k: real): real -> real {
    (x: real) => x * k
  }

  function Map(f: real -> real, xs: seq<real>): (r: seq<real>)
    ensures |r| == |xs|
  {
    if xs == [] then [] else Map(f, xs[..|xs| - 1]) + [f(xs[|xs| - 1])]
  }

  function ScaleAll(xs: seq<real>, k: real): (r: seq<real>)
    ensures |r| == |xs|
  {
    Map(By(k), xs)
  }

  /** Minimums that exceed the space shrink in proportion, unless they are negligible. */
  function Scaled(minimums: seq<real>, available: real): (r: seq<real>)
    ensures |r| == |minimums|
  {
    if NeedsScaling(minimums, available) then ScaleAll(minimums, available / Sum(minimums)) else minimums
  }

  function Weights(flex: seq<real>): (r: seq<real>)
    ensures |r| == |flex|
  {
    seq(|flex|, i requires 0 <= i < |flex| => Max(flex[i], EPSILON))
  }

  /** Every item gets its minimum or its weight's share at one common level, whichever is larger. */
  predicate IsWaterFill(extents: seq<real>, minimums: seq<real>, weights: seq<real>, level: real) {
    && |extents| == |minimums| == |weights|
    && forall i :: 0 <= i < |extents| ==> extents[i] == Max(minimums[i], level * weights[i])
  }

  /** The space is too small for minimums that are too small to be scaled. */
  predicate Overflows(minimums: seq<real>, available: real) {
    available < Sum(minimums) <= EPSILON
  }

  // ---------------------------------------------------------------------------
  // Sums
  // ---------------------------------------------------------------------------

  lemma {:induction false} SumAtLeast(xs: seq<real>, ys: seq<real>)
    requires AtLeast(xs, ys)
    ensures Sum(xs) >= Sum(ys)
    decreases |xs|
  {
    if xs != [] {
      SumAtLeast(xs[..|xs| - 1], ys[..|ys| - 1]);
    }
  }

  lemma {:induction false} MapAt(f: real -> real, xs: seq<real>, i: nat)
    requires i < |xs|
    ensures Map(f, xs)[i] == f(xs[i])
    decreases |xs|
  {
    if i < |xs| - 1 {
      MapAt(f, xs[..|xs| - 1], i);
    }
  }

  function Plus(a: real, b: real): real {
    a + b
  }

  ghost predicate Additive(f: real -> real) {
    f(0.0) == 0.0 && forall a, b {:trigger Plus(a, b)} :: f(Plus(a, b)) == f(a) + f(b)
  }

  lemma {:induction false} ByIsAdditive(k: real)
    ensures Additive(By(k))
  {
    forall a: real, b: real ensures By(k)(Plus(a, b)) == By(k)(a) + By(k)(b) {
      assert (a + b) * k == a * k + b * k;
    }
  }

  lemma {:induction false} SumMap(f: real -> real, xs: seq<real>)
    requires Additive(f)
    ensures Sum(Map(f, xs)) == f(Sum(xs))
    decreases |xs|
  {
    if xs != [] {
      var n := |xs| - 1;
      SumMap(f, xs[..n]);
      assert Sum(xs) == Plus(Sum(xs[..n]), xs[n]);
      assert Map(f, xs)[..n] == Map(f, xs[..n]);
    }
  }

  lemma {:induction false} ScaleAllSum(xs: seq<real>, k: real)
    ensures Sum(ScaleAll(xs, k)) == Sum(xs) * k
  {
    ByIsAdditive(k);
    SumMap(By(k), xs);
  }

  lemma {:induction false} MapNonNegative(f: real -> real, xs: seq<real>)
    requires NonNegative(xs) && forall x :: x >= 0.0 ==> f(x) >= 0.0
    ensures NonNegative(Map(f, xs))
  {
    forall i | 0 <= i < |xs| ensures Map(f, xs)[i] >= 0.0 {
      MapAt(f, xs, i);
    }
  }

  lemma {:induction false} ByNonNegative(k: real, x: real)
    requires k >= 0.0
    ensures x >= 0.0 ==> By(k)(x) >= 0.0
  {}

  lemma {:induction false} ScaleAllNonNegative(xs: seq<real>, k: real)
    requires NonNegative(xs) && k >= 0.0
    ensures NonNegative(ScaleAll(xs, k))
  {
    forall x ensures x >= 0.0 ==> By(k)(x) >= 0.0 {
      ByNonNegative(k, x);
    }
    MapNonNegative(By(k), xs);
  }

  lemma {:induction false} SumUpdate(xs: seq<real>, i: nat, x: real)
    requires i < |xs|
    ensures Sum(xs[i := x]) == Sum(xs) - xs[i] + x
    decreases |xs|
  {
    var n := |xs| - 1;
    if i == n {
      assert xs[i := x][..n] == xs[..n];
    } else {
      SumUpdate(xs[..n], i, x);
      assert xs[i := x][..n] == xs[..n][i := x];
    }
  }

  /** The sum of those elements of `xs` whose flag is set. */
  function SumIf(xs: seq<real>, flags: seq<bool>): real
    requires |xs| == |flags|
  {
    if xs == [] then 0.0 else
      var n := |xs| - 1;
      SumIf(xs[..n], flags[..n]) + if flags[n] then xs[n] else 0.0
  }

  lemma {:induction false} SumIfClear(xs: seq<real>, flags: seq<bool>, i: nat)
    requires |xs| == |flags| && i < |xs| && flags[i]
    ensures SumIf(xs, flags[i := false]) == SumIf(xs, flags) - xs[i]
    decreases |xs|
  {
    var n := |xs| - 1;
    if i == n {
      assert flags[i := false][..n] == flags[..n];
    } else {
      SumIfClear(xs[..n], flags[..n], i);
      assert flags[i := false][..n] == flags[..n][i := false];
    }
  }

  lemma {:induction false} SumIfAll(xs: seq<real>, flags: seq<bool>)
    requires |xs| == |flags| && forall i :: 0 <= i < |xs| ==> flags[i]
    ensures SumIf(xs, flags) == Sum(xs)
    decreases |xs|
  {
    if xs != [] {
      var n := |xs| - 1;
      SumIfAll(xs[..n], flags[..n]);
    }
  }

  lemma {:induction false} SumIfBounds(xs: seq<real>, flags: seq<bool>, i: nat)
    requires |xs| == |flags| && NonNegative(xs)
    ensures SumIf(xs, flags) >= 0.0
    ensures i < |xs| && flags[i] ==> SumIf(xs, flags) >= xs[i]
    decreases |xs|
  {
    if xs != [] {
      var n := |xs| - 1;
      SumIfBounds(xs[..n], flags[..n], i);
    }
  }

  /** Flagged items at their share, the others at their minimum. */
  lemma {:induction false} SumOfFill(extents: seq<real>, minimums: seq<real>, shares: seq<real>, flags: seq<bool>)
    requires |extents| == |minimums| == |shares| == |flags|
    requires forall i :: 0 <= i < |extents| ==> extents[i] == if flags[i] then shares[i] else minimums[i]
    ensures Sum(extents) == Sum(minimums) - SumIf(minimums, flags) + SumIf(shares, flags)
    decreases |extents|
  {
    if extents != [] {
      var n := |extents| - 1;
      SumOfFill(extents[..n], minimums[..n], shares[..n], flags[..n]);
    }
  }

  lemma {:induction false} SumIfMap(f: real -> real, xs: seq<real>, flags: seq<bool>)
    requires |xs| == |flags| && Additive(f)
    ensures SumIf(Map(f, xs), flags) == f(SumIf(xs, flags))
    decreases |xs|
  {
    if xs != [] {
      var n := |xs| - 1;
      SumIfMap(f, xs[..n], flags[..n]);
      assert flags[n] ==> SumIf(xs, flags) == Plus(SumIf(xs[..n], flags[..n]), xs[n]);
      assert Map(f, xs)[..n] == Map(f, xs[..n]);
    }
  }

  // ---------------------------------------------------------------------------
  // The level only falls
  // ---------------------------------------------------------------------------

  lemma {:induction false} MulMonotone(a: real, b: real, k: real)
    requires a <= b && k >= 0.0
    ensures a * k <= b * k
  {
    assert (b - a) * k >= 0.0;
  }

  lemma {:induction false} MulStrict(a: real, b: real, k: real)
    requires a < b && k > 0.0
    ensures a * k < b * k
  {
    assert (b - a) * k > 0.0;
  }

  lemma {:induction false} CancelPositive(a: real, b: real, w: real)
    requires w > 0.0 && a * w <= b * w
    ensures a <= b
  {
    if b < a {
      MulStrict(b, a, w);
    }
  }

  /** Fixing an undersized item `j` keeps an item `i` that is fixed already at or above its share. */
  lemma {:induction false} LevelFalls(r: real, w: real, mj: real, wj: real, mi: real, wi: real)
    requires w > 0.0 && 0.0 <= wj <= w && wi >= 0.0
    requires r * wj <= mj * w && r * wi <= mi * w
    ensures (r - mj) * wi <= mi * (w - wj)
  {
    assert ((r - mj) * wi) * w <= (mi * (w - wj)) * w by {
      MulMonotone(r * wj, mj * w, wi);
      MulMonotone(r * wi, mi * w, w - wj);
      assert ((r - mj) * wi) * w == (r * wi) * w - (mj * w) * wi;
      assert (r * wi) * w - (r * wj) * wi == (r * wi) * (w - wj);
      assert (mi * w) * (w - wj) == (mi * (w - wj)) * w;
    }
    CancelPositive((r - mj) * wi, mi * (w - wj), w);
  }

  // ---------------------------------------------------------------------------
  // Dividing the space
  // ---------------------------------------------------------------------------

  /** The share of a flexible item, computed as the code does. */
  function Share(remaining: real, weight: real, total: real): real
    requires total != 0.0
  {
    remaining * weight / total
  }

  lemma {:induction false} ShareMul(remaining: real, weight: real, total: real)
    requires total > 0.0
    ensures Share(remaining, weight, total) * total == remaining * weight
    ensures Share(remaining, weight, total) == (remaining / total) * weight
  {
    assert (remaining / total) * total == remaining;
    assert ((remaining / total) * weight) * total == remaining * weight;
  }

  /** The state of the loop: the fixed items sit at their minimum, at or above their share. */
  predicate Fixed(
    extents: seq<real>, minimums: seq<real>, weights: seq<real>, flexible: seq<bool>, remaining: real, total: real)
  {
    && |extents| == |minimums| == |weights| == |flexible|
    && forall i :: 0 <= i < |extents| && !flexible[i] ==>
         extents[i] == minimums[i] && remaining * weights[i] <= minimums[i] * total
  }

  lemma {:induction false} Undersized(remaining: real, weight: real, total: real, minimum: real)
    requires total > 0.0
    ensures Share(remaining, weight, total) < minimum ==> remaining * weight < minimum * total
  {
    ShareMul(remaining, weight, total);
    if Share(remaining, weight, total) < minimum {
      MulStrict(Share(remaining, weight, total), minimum, total);
    }
  }

  /** An item that has all the weight is not undersized. */
  lemma {:induction false} NotTheLast(remaining: real, weight: real, total: real, minimum: real)
    requires weight > 0.0 && remaining >= minimum && remaining * weight < minimum * total
    ensures total != weight
  {
    MulMonotone(minimum, remaining, weight);
  }

  /** The weight and the minimums of the items that stay flexible when `j` is fixed. */
  lemma {:induction false} FixSums(
    minimums: seq<real>, weights: seq<real>, flexible: seq<bool>, remaining: real, total: real, j: nat)
    requires |minimums| == |weights| == |flexible| && NonNegative(minimums) && Positive(weights)
    requires total == SumIf(weights, flexible) && remaining >= SumIf(minimums, flexible)
    requires j < |flexible| && flexible[j] && remaining * weights[j] < minimums[j] * total
    ensures SumIf(weights, flexible[j := false]) == total - weights[j] > 0.0
    ensures SumIf(minimums, flexible[j := false]) == SumIf(minimums, flexible) - minimums[j]
    ensures remaining - minimums[j] >= SumIf(minimums, flexible[j := false]) >= 0.0
  {
    SumIfClear(weights, flexible, j);
    SumIfClear(minimums, flexible, j);
    SumIfBounds(weights, flexible[j := false], j);
    SumIfBounds(minimums, flexible[j := false], j);
    NotTheLast(remaining, weights[j], total, minimums[j]);
  }

  lemma {:induction false} FixOne(
    extents: seq<real>, minimums: seq<real>, weights: seq<real>, flexible: seq<bool>,
    remaining: real, total: real, j: nat)
    requires Fixed(extents, minimums, weights, flexible, remaining, total)
    requires j < |extents| && Positive(weights) && weights[j] < total
    requires flexible[j] && remaining * weights[j] < minimums[j] * total
    ensures Fixed(extents[j := minimums[j]], minimums, weights, flexible[j := false],
      remaining - minimums[j], total - weights[j])
  {
    forall i | 0 <= i < |extents| && !flexible[j := false][i]
      ensures (remaining - minimums[j]) * weights[i] <= minimums[i] * (total - weights[j])
    {
      LevelFalls(remaining, total, minimums[j], weights[j], minimums[i], weights[i]);
    }
  }

  lemma {:induction false} Rescale(total: real, available: real)
    requires total != 0.0
    ensures total * (available / total) == available
  {}

  lemma {:induction false} ScaledSum(minimums: seq<real>, available: real)
    requires NeedsScaling(minimums, available)
    ensures Sum(Scaled(minimums, available)) == available
  {
    ScaleAllSum(minimums, available / Sum(minimums));
    Rescale(Sum(minimums), available);
  }

  lemma {:induction false} ScaledNonNegative(minimums: seq<real>, available: real)
    requires NonNegative(minimums) && available >= 0.0
    ensures NonNegative(Scaled(minimums, available))
  {
    if NeedsScaling(minimums, available) {
      assert available / Sum(minimums) >= 0.0;
      ScaleAllNonNegative(minimums, available / Sum(minimums));
    }
  }

  lemma {:induction false} ScaledFits(minimums: seq<real>, available: real)
    requires NonNegative(minimums) && available >= 0.0
    ensures NonNegative(Scaled(minimums, available))
    ensures Sum(Scaled(minimums, available)) <= available <==> !Overflows(minimums, available)
  {
    ScaledNonNegative(minimums, available);
    if NeedsScaling(minimums, available) {
      ScaledSum(minimums, available);
    }
  }

  function Count(flags: seq<bool>): nat {
    if flags == [] then 0 else Count(flags[..|flags| - 1]) + if flags[|flags| - 1] then 1 else 0
  }

  lemma {:induction false} CountClear(flags: seq<bool>, i: nat)
    requires i < |flags| && flags[i]
    ensures Count(flags[i := false]) == Count(flags) - 1
    decreases |flags|
  {
    var n := |flags| - 1;
    if i == n {
      assert flags[i := false][..n] == flags[..n];
    } else {
      CountClear(flags[..n], i);
      assert flags[i := false][..n] == flags[..n][i := false];
    }
  }

  /** Every flexible item gets its share. */
  function Filled(
    extents: seq<real>, weights: seq<real>, flexible: seq<bool>, remaining: real, total: real): (r: seq<real>)
    requires |extents| == |weights| == |flexible|
    requires total > 0.0 || forall i :: 0 <= i < |flexible| ==> !flexible[i]
    ensures |r| == |extents|
  {
    seq(|extents|, i requires 0 <= i < |extents| =>
      if flexible[i] then Share(remaining, weights[i], total) else extents[i])
  }

  lemma {:induction false} FilledItem(
    extent: real, minimum: real, weight: real, flexible: bool, remaining: real, total: real)
    requires total > 0.0
    requires flexible ==> Share(remaining, weight, total) >= minimum
    requires !flexible ==> extent == minimum && remaining * weight <= minimum * total
    ensures var level := remaining / total;
      var filled := if flexible then Share(remaining, weight, total) else extent;
      filled == Max(minimum, level * weight) && filled == if flexible then weight * level else minimum
  {
    ShareMul(remaining, weight, total);
    if !flexible {
      CancelPositive((remaining / total) * weight, minimum, total);
    }
  }

  lemma {:induction false} FilledItems(
    extents: seq<real>, minimums: seq<real>, weights: seq<real>, flexible: seq<bool>, remaining: real, total: real)
    requires Fixed(extents, minimums, weights, flexible, remaining, total) && total > 0.0
    requires forall i :: 0 <= i < |extents| && flexible[i] ==> Share(remaining, weights[i], total) >= minimums[i]
    ensures var filled := Filled(extents, weights, flexible, remaining, total);
      && IsWaterFill(filled, minimums, weights, remaining / total)
      && forall i :: 0 <= i < |filled| ==>
        filled[i] == if flexible[i] then ScaleAll(weights, remaining / total)[i] else minimums[i]
  {
    forall i | 0 <= i < |extents|
      ensures var filled := Filled(extents, weights, flexible, remaining, total)[i];
        && filled == Max(minimums[i], (remaining / total) * weights[i])
        && filled == if flexible[i] then ScaleAll(weights, remaining / total)[i] else minimums[i]
    {
      FilledItem(extents[i], minimums[i], weights[i], flexible[i], remaining, total);
      MapAt(By(remaining / total), weights, i);
    }
  }

  /** Together the flexible items get all that remains. */
  lemma {:induction false} SharesSum(weights: seq<real>, flexible: seq<bool>, remaining: real, total: real)
    requires |weights| == |flexible| && total == SumIf(weights, flexible) > 0.0
    ensures SumIf(ScaleAll(weights, remaining / total), flexible) == remaining
  {
    ByIsAdditive(remaining / total);
    SumIfMap(By(remaining / total), weights, flexible);
    assert total * (remaining / total) == remaining;
  }

  /** When no flexible item is undersized, the shares complete a water fill of exactly the available space. */
  lemma {:induction false} FillIsWaterFill(
    extents: seq<real>, minimums: seq<real>, weights: seq<real>, flexible: seq<bool>,
    remaining: real, total: real, available: real)
    requires Fixed(extents, minimums, weights, flexible, remaining, total)
    requires total == SumIf(weights, flexible) > 0.0
    requires remaining == available - (Sum(minimums) - SumIf(minimums, flexible))
    requires forall i :: 0 <= i < |extents| && flexible[i] ==> Share(remaining, weights[i], total) >= minimums[i]
    ensures Sum(Filled(extents, weights, flexible, remaining, total)) == available
    ensures IsWaterFill(Filled(extents, weights, flexible, remaining, total), minimums, weights, remaining / total)
  {
    var shares := ScaleAll(weights, remaining / total);
    FilledItems(extents, minimums, weights, flexible, remaining, total);
    SumOfFill(Filled(extents, weights, flexible, remaining, total), minimums, shares, flexible);
    SharesSum(weights, flexible, remaining, total);
  }

  /** The first flexible item whose share is below its minimum, or the number of items if there is none. */
  method FindUndersized(minimums: seq<real>, weights: seq<real>, flexible: seq<bool>, remaining: real, total: real)
    returns (index: nat)
    requires |minimums| == |weights| == |flexible|
    requires forall i :: 0 <= i < |flexible| && flexible[i] ==> total > 0.0
    ensures index <= |flexible|
    ensures index < |flexible| ==> flexible[index] && Share(remaining, weights[index], total) < minimums[index]
    ensures forall i :: 0 <= i < index && flexible[i] ==> Share(remaining, weights[i], total) >= minimums[i]
  {
    index := 0;
    while index < |flexible| && !(flexible[index] && Share(remaining, weights[index], total) < minimums[index])
      invariant index <= |flexible|
      invariant forall i :: 0 <= i < index && flexible[i] ==> Share(remaining, weights[i], total) >= minimums[i]
    {
      index := index + 1;
    }
  }

  method ScaleEach(original: seq<real>, scale: real) returns (minimums: seq<real>)
    ensures minimums == ScaleAll(original, scale)
  {
    minimums := original;
    ghost var target := ScaleAll(original, scale);
    for i := 0 to |original|
      invariant |minimums| == |original|
      invariant forall k :: 0 <= k < i ==> minimums[k] == target[k]
      invariant forall k :: i <= k < |original| ==> minimums[k] == original[k]
    {
      MapAt(By(scale), original, i);
      minimums := minimums[i := minimums[i] * scale];
    }
  }

  /** The minimums, each shrunk when together they exceed the space. */
  method ScaleMinimums(original: seq<real>, available: real) returns (minimums: seq<real>)
    ensures minimums == Scaled(original, available)
  {
    minimums := original;
    if NeedsScaling(original, available) {
      minimums := ScaleEach(original, available / Sum(original));
    }
  }

  /** The loop has not yet gone wrong: what remains covers the minimums of the flexible items. */
  predicate OnTrack(
    extents: seq<real>, minimums: seq<real>, weights: seq<real>, flexible: seq<bool>, remaining: real, available: real)
  {
    && |extents| == |minimums| == |weights| == |flexible|
    && SumIf(weights, flexible) > 0.0
    && Fixed(extents, minimums, weights, flexible, remaining, SumIf(weights, flexible))
    && remaining >= SumIf(minimums, flexible)
    && remaining == available - (Sum(minimums) - SumIf(minimums, flexible))
  }

  lemma {:induction false} StaysOnTrack(
    extents: seq<real>, minimums: seq<real>, weights: seq<real>, flexible: seq<bool>,
    remaining: real, available: real, j: nat)
    requires OnTrack(extents, minimums, weights, flexible, remaining, available)
    requires NonNegative(minimums) && Positive(weights)
    requires j < |extents| && flexible[j] && Share(remaining, weights[j], SumIf(weights, flexible)) < minimums[j]
    ensures OnTrack(extents[j := minimums[j]], minimums, weights, flexible[j := false],
      Max(remaining - minimums[j], 0.0), available)
  {
    var total := SumIf(weights, flexible);
    Undersized(remaining, weights[j], total, minimums[j]);
    FixSums(minimums, weights, flexible, remaining, total, j);
    FixOne(extents, minimums, weights, flexible, remaining, total, j);
  }

  lemma {:induction false} StartsOnTrack(minimums: seq<real>, weights: seq<real>, available: real)
    requires |minimums| == |weights| > 0 && Positive(weights) && Sum(minimums) <= available
    ensures OnTrack(seq(|weights|, _ => 0.0), minimums, weights, seq(|weights|, _ => true), available, available)
  {
    var flexible := seq(|weights|, _ => true);
    SumIfAll(minimums, flexible);
    SumIfBounds(weights, flexible, 0);
  }

  /**
   * The extents respect the (scaled) minimums. They add up to exactly the available space, as
   * a water fill at one common level, if and only if the space does not fall below minimums
   * that are too small to be scaled.
   */
  method FlexExtentsWithMinimums(flex: seq<real>, available: real, original: seq<real>) returns (extents: seq<real>)
    requires |flex| == |original| && NonNegative(original) && available >= 0.0
    ensures |extents| == |flex|
    ensures AtLeast(extents, Scaled(original, available))
    ensures flex != [] ==> (Sum(extents) == available <==> !Overflows(original, available))
    ensures flex != [] && !Overflows(original, available) ==>
      exists level :: IsWaterFill(extents, Scaled(original, available), Weights(flex), level)
  {
    if |flex| == 0 {
      return [];
    }
    var minimums := ScaleMinimums(original, available);
    ScaledFits(original, available);
    ghost var fits := Sum(minimums) <= available;
    extents := seq(|flex|, _ => 0.0);
    var flexible := seq(|flex|, _ => true);
    var weights := Weights(flex);
    var remaining := available;
    if fits {
      StartsOnTrack(minimums, weights, available);
    }
    while true
      invariant |extents| == |flexible| == |flex|
      invariant forall i :: 0 <= i < |flex| && !flexible[i] ==> extents[i] == minimums[i]
      invariant fits ==> OnTrack(extents, minimums, weights, flexible, remaining, available)
      decreases Count(flexible)
    {
      var total := SumIf(weights, flexible);
      forall i | 0 <= i < |flexible| && flexible[i] ensures total > 0.0 {
        SumIfBounds(weights, flexible, i);
      }
      var index := FindUndersized(minimums, weights, flexible, remaining, total);
      if index == |flex| {
        if fits {
          FillIsWaterFill(extents, minimums, weights, flexible, remaining, total, available);
        }
        extents := Filled(extents, weights, flexible, remaining, total);
        SumAtLeast(extents, minimums);
        return;
      }
      if fits {
        StaysOnTrack(extents, minimums, weights, flexible, remaining, available, index);
      }
      CountClear(flexible, index);
      flexible := flexible[index := false];
      extents := extents[index := minimums[index]];
      remaining := Max(remaining - minimums[index], 0.0);
    }
  }

  /** The family is not empty: with no space at all, one item of negligible minimum still gets some. */
  method OverflowingLayout() returns (extents: seq<real>)
    ensures |extents| == 1 && Overflows([EPSILON], 0.0) && Sum(extents) > 0.0
  {
    assert Sum([EPSILON]) == EPSILON by {
      assert [EPSILON][..0] == [];
    }
    extents := FlexExtentsWithMinimums([1.0], 0.0, [EPSILON]);
    SumAtLeast(extents, [EPSILON]);
  }

  lemma {:induction false} MaxMonotone(minimum: real, p: real, q: real, d: real)
    requires q == p + d && d >= 0.0
    ensures Max(minimum, p) <= Max(minimum, q)
  {}

  lemma {:induction false} LevelRaises(minimum: real, weight: real, la: real, lb: real)
    requires weight > 0.0 && la <= lb
    ensures Max(minimum, la * weight) <= Max(minimum, lb * weight)
  {
    var d := (lb - la) * weight;
    assert d >= 0.0;
    MaxMonotone(minimum, la * weight, lb * weight, d);
  }

  lemma {:induction false} FillMonotone(
    a: seq<real>, b: seq<real>, minimums: seq<real>, weights: seq<real>, la: real, lb: real)
    requires Positive(weights) && la <= lb
    requires IsWaterFill(a, minimums, weights, la) && IsWaterFill(b, minimums, weights, lb)
    ensures AtLeast(b, a)
  {
    forall i | 0 <= i < |a| ensures b[i] >= a[i] {
      assert weights[i] > 0.0 && a[i] == Max(minimums[i], la * weights[i]) && b[i] == Max(minimums[i], lb * weights[i]);
      LevelRaises(minimums[i], weights[i], la, lb);
    }
  }

  lemma {:induction false} EqualSums(xs: seq<real>, ys: seq<real>)
    requires AtLeast(xs, ys) && Sum(xs) == Sum(ys)
    ensures xs == ys
    decreases |xs|
  {
    if xs != [] {
      var n := |xs| - 1;
      SumAtLeast(xs[..n], ys[..n]);
      EqualSums(xs[..n], ys[..n]);
      assert xs == xs[..n] + [xs[n]] && ys == ys[..n] + [ys[n]];
    }
  }

  /** A water fill of a given total is unique, whatever the level. */
  lemma {:induction false} WaterFillUnique(
    a: seq<real>, b: seq<real>, minimums: seq<real>, weights: seq<real>, la: real, lb: real)
    requires Positive(weights) && IsWaterFill(a, minimums, weights, la) && IsWaterFill(b, minimums, weights, lb)
    requires Sum(a) == Sum(b)
    ensures a == b
  {
    if la <= lb {
      FillMonotone(a, b, minimums, weights, la, lb);
      EqualSums(b, a);
    } else {
      FillMonotone(b, a, minimums, weights, lb, la);
      EqualSums(a, b);
    }
  }

  // ---------------------------------------------------------------------------
  // Dragging a border
  // ---------------------------------------------------------------------------

  datatype Pair = Pair(first: real, second: real)

  function PairMinimums(pairTotal: real, firstMin: real, secondMin: real): Pair {
    var minTotal := firstMin + secondMin;
    if minTotal > pairTotal && minTotal > EPSILON
    then Pair(firstMin * (pairTotal / minTotal), secondMin * (pairTotal / minTotal))
    else Pair(firstMin, secondMin)
  }

  /** The lower bound of the clamp does not exceed its upper bound; otherwise `clamp` panics. */
  predicate ClampDefined(pairTotal: real, firstMin: real, secondMin: real) {
    var m := PairMinimums(pairTotal, firstMin, secondMin);
    m.first <= pairTotal - m.second
  }

  /** The clamp panics exactly on negligible minimums that exceed the pair. */
  lemma {:induction false} ClampDefinedIff(pairTotal: real, firstMin: real, secondMin: real)
    ensures ClampDefined(pairTotal, firstMin, secondMin) <==> !(pairTotal < firstMin + secondMin <= EPSILON)
  {
    var minTotal := firstMin + secondMin;
    if minTotal > pairTotal && minTotal > EPSILON {
      var k := pairTotal / minTotal;
      assert firstMin * k + secondMin * k == minTotal * k == pairTotal;
    }
  }

  /** A pair without extent and with negligible minimums is such a case. */
  lemma {:induction false} ClampCanPanic()
    ensures !ClampDefined(0.0, EPSILON / 2.0, EPSILON / 2.0)
  {}

  function Clamp(x: real, low: real, high: real): real
    requires low <= high
  {
    if x < low then low else if x > high then high else x
  }

  function Dragged(extents: seq<real>, first: nat, delta: real, firstMin: real, secondMin: real): (r: seq<real>)
    requires first + 1 < |extents| && ClampDefined(extents[first] + extents[first + 1], firstMin, secondMin)
    ensures |r| == |extents|
  {
    var pairTotal := extents[first] + extents[first + 1];
    var m := PairMinimums(pairTotal, firstMin, secondMin);
    var moved := Clamp(extents[first] + delta, m.first, pairTotal - m.second);
    extents[first := moved][first + 1 := pairTotal - moved]
  }

  /**
   * A drag keeps the total of the pair and both (scaled) minimums, follows the pointer as far
   * as they allow, and touches no other panel.
   */
  method ClampPair(extents: array<real>, first: nat, delta: real, firstMin: real, secondMin: real)
    requires first + 1 < extents.Length && ClampDefined(extents[first] + extents[first + 1], firstMin, secondMin)
    modifies extents
    ensures extents[first] + extents[first + 1] == old(extents[first] + extents[first + 1])
    ensures var m := PairMinimums(old(extents[first] + extents[first + 1]), firstMin, secondMin);
      var wanted := old(extents[first]) + delta;
      && extents[first] >= m.first && extents[first + 1] >= m.second
      && (extents[first] < wanted ==> extents[first + 1] == m.second)
      && (extents[first] > wanted ==> extents[first] == m.first)
    ensures forall i :: 0 <= i < extents.Length && i != first && i != first + 1 ==> extents[i] == old(extents[i])
    ensures extents[..] == Dragged(old(extents[..]), first, delta, firstMin, secondMin)
  {
    var pairTotal := extents[first] + extents[first + 1];
    var m := PairMinimums(pairTotal, firstMin, secondMin);
    var firstMax := pairTotal - m.second;
    var firstExtent := Clamp(extents[first] + delta, m.first, firstMax);
    extents[first] := firstExtent;
    extents[first + 1] := pairTotal - firstExtent;
  }

  datatype Drag = Drag(first: nat, delta: real)

  /** A drag of the stack, with the minimums capped by the budget as the caller passes them. */
  predicate DragAllowed(extents: seq<real>, minimums: seq<real>, budget: real, d: Drag) {
    && |extents| == |minimums| && d.first + 1 < |extents|
    && ClampDefined(extents[d.first] + extents[d.first + 1],
                    Min(minimums[d.first], budget), Min(minimums[d.first + 1], budget))
  }

  function ApplyDrag(extents: seq<real>, minimums: seq<real>, budget: real, d: Drag): seq<real>
    requires DragAllowed(extents, minimums, budget, d)
  {
    Dragged(extents, d.first, d.delta, Min(minimums[d.first], budget), Min(minimums[d.first + 1], budget))
  }

  /** Starting extents that respect the minimums within the budget. */
  predicate Respects(extents: seq<real>, minimums: seq<real>, budget: real) {
    AtLeast(extents, minimums) && NonNegative(minimums) && Sum(extents) == budget
  }

  lemma {:induction false} NonNegativeSum(xs: seq<real>)
    requires NonNegative(xs)
    ensures Sum(xs) >= 0.0
    decreases |xs|
  {
    if xs != [] {
      NonNegativeSum(xs[..|xs| - 1]);
    }
  }

  lemma {:induction false} ElementWithinSum(extents: seq<real>, minimums: seq<real>, i: nat)
    requires AtLeast(extents, minimums) && NonNegative(minimums) && i < |extents|
    ensures minimums[i] <= Sum(extents)
    decreases |extents|
  {
    var n := |extents| - 1;
    if i == n {
      SumAtLeast(extents[..n], minimums[..n]);
      NonNegativeSum(minimums[..n]);
    } else {
      ElementWithinSum(extents[..n], minimums[..n], i);
    }
  }

  lemma {:induction false} DragKeeps(extents: seq<real>, minimums: seq<real>, budget: real, d: Drag)
    requires Respects(extents, minimums, budget) && d.first + 1 < |extents|
    ensures DragAllowed(extents, minimums, budget, d)
    ensures Respects(ApplyDrag(extents, minimums, budget, d), minimums, budget)
    ensures forall i :: 0 <= i < |extents| && i != d.first && i != d.first + 1 ==>
      ApplyDrag(extents, minimums, budget, d)[i] == extents[i]
  {
    var i, j := d.first, d.first + 1;
    ElementWithinSum(extents, minimums, i);
    ElementWithinSum(extents, minimums, j);
    ClampDefinedIff(extents[i] + extents[j], minimums[i], minimums[j]);
    var moved := Clamp(extents[i] + d.delta, minimums[i], extents[i] + extents[j] - minimums[j]);
    SumUpdate(extents, i, moved);
    SumUpdate(extents[i := moved], j, extents[i] + extents[j] - moved);
  }

  /** All drags of a session, one after the other; a drag that does not fit the stack is skipped. */
  function ApplyDrags(extents: seq<real>, minimums: seq<real>, budget: real, drags: seq<Drag>): (r: seq<real>)
    ensures |r| == |extents|
  {
    if drags == [] then extents else
      var before := ApplyDrags(extents, minimums, budget, drags[..|drags| - 1]);
      var d := drags[|drags| - 1];
      if DragAllowed(before, minimums, budget, d) then ApplyDrag(before, minimums, budget, d) else before
  }

  /**
   * Once the extents respect the minimums, no sequence of drags changes their total, takes
   * any of them below its minimum, or makes the clamp panic.
   */
  lemma {:induction false} DragsKeep(
    extents: seq<real>, minimums: seq<real>, budget: real, drags: seq<Drag>, next: Drag)
    requires Respects(extents, minimums, budget)
    ensures Respects(ApplyDrags(extents, minimums, budget, drags), minimums, budget)
    ensures next.first + 1 < |extents| ==>
      DragAllowed(ApplyDrags(extents, minimums, budget, drags), minimums, budget, next)
    decreases |drags|
  {
    if drags != [] {
      var front, d := drags[..|drags| - 1], drags[|drags| - 1];
      DragsKeep(extents, minimums, budget, front, d);
      if d.first + 1 < |extents| {
        DragKeeps(ApplyDrags(extents, minimums, budget, front), minimums, budget, d);
      }
    }
    if next.first + 1 < |extents| {
      DragKeeps(ApplyDrags(extents, minimums, budget, drags), minimums, budget, next);
    }
  }

  lemma {:induction false} ApplyDragsConcat(
    extents: seq<real>, minimums: seq<real>, budget: real, a: seq<Drag>, b: seq<Drag>)
    ensures ApplyDrags(ApplyDrags(extents, minimums, budget, a), minimums, budget, b)
         == ApplyDrags(extents, minimums, budget, a + b)
    decreases |b|
  {
    if b == [] {
      assert a + b == a;
    } else {
      ApplyDragsConcat(extents, minimums, budget, a, b[..|b| - 1]);
      assert (a + b)[..|a + b| - 1] == a + b[..|b| - 1];
    }
  }

  // ---------------------------------------------------------------------------
  // The callers
  // ---------------------------------------------------------------------------

  /** Both callers raise their budget to at least one; then the minimums are never both negligible and too large. */
  lemma {:induction false} CallersDoNotOverflow(minimums: seq<real>, budget: real)
    requires budget >= 1.0
    ensures !Overflows(minimums, budget)
  {}

  /** And with minimums above half of epsilon the clamp does not panic, whatever the pair. */
  lemma {:induction false} CallersDoNotPanic(pairTotal: real, firstMin: real, secondMin: real, budget: real)
    requires budget >= 1.0 && firstMin > EPSILON / 2.0 && secondMin > EPSILON / 2.0
    ensures ClampDefined(pairTotal, Min(firstMin, budget), Min(secondMin, budget))
  {
    ClampDefinedIff(pairTotal, Min(firstMin, budget), Min(secondMin, budget));
  }

  /** Also when the budget does not cover the minimums a drag keeps the total and touches only its pair. */
  lemma {:induction false} DragKeepsTotal(extents: seq<real>, minimums: seq<real>, budget: real, d: Drag)
    requires DragAllowed(extents, minimums, budget, d)
    ensures Sum(ApplyDrag(extents, minimums, budget, d)) == Sum(extents)
    ensures forall i :: 0 <= i < |extents| && i != d.first && i != d.first + 1 ==>
      ApplyDrag(extents, minimums, budget, d)[i] == extents[i]
  {
    var i, j := d.first, d.first + 1;
    var dragged := ApplyDrag(extents, minimums, budget, d);
    SumUpdate(extents, i, dragged[i]);
    SumUpdate(extents[i := dragged[i]], j, dragged[j]);
    assert dragged == extents[i := dragged[i]][j := dragged[j]];
  }

  /** So does every sequence of drags. */
  lemma {:induction false} DragsKeepTotal(extents: seq<real>, minimums: seq<real>, budget: real, drags: seq<Drag>)
    ensures Sum(ApplyDrags(extents, minimums, budget, drags)) == Sum(extents)
    decreases |drags|
  {
    if drags != [] {
      var front, d := drags[..|drags| - 1], drags[|drags| - 1];
      DragsKeepTotal(extents, minimums, budget, front);
      var before := ApplyDrags(extents, minimums, budget, front);
      if DragAllowed(before, minimums, budget, d) {
        DragKeepsTotal(before, minimums, budget, d);
      }
    }
  }

  // ---------------------------------------------------------------------------
  // Frames
  // ---------------------------------------------------------------------------

  function NormalizedFlex(flex: seq<real>): (r: seq<real>)
    ensures |r| == |flex|
  {
    if Sum(flex) <= EPSILON then seq(|flex|, _ => 1.0) else flex
  }

  lemma {:induction false} NormalizedSum(flex: seq<real>)
    requires flex != []
    ensures Sum(NormalizedFlex(flex)) > EPSILON
  {
    var ones := seq(|flex|, _ => 1.0);
    ElementWithinSum(ones, ones, 0);
  }

  /** The one layout of these weights in this budget, as the code computes it. */
  ghost predicate IsLayout(extents: seq<real>, flex: seq<real>, minimums: seq<real>, budget: real) {
    && |extents| == |flex| && Sum(extents) == budget
    && exists level :: IsWaterFill(extents, Scaled(minimums, budget), Weights(flex), level)
  }

  lemma {:induction false} LayoutUnique(a: seq<real>, b: seq<real>, flex: seq<real>, minimums: seq<real>, budget: real)
    requires IsLayout(a, flex, minimums, budget) && IsLayout(b, flex, minimums, budget)
    ensures a == b
  {
    var la :| IsWaterFill(a, Scaled(minimums, budget), Weights(flex), la);
    var lb :| IsWaterFill(b, Scaled(minimums, budget), Weights(flex), lb);
    WaterFillUnique(a, b, Scaled(minimums, budget), Weights(flex), la, lb);
  }

  /** Heights that respect the minimums are the layout of themselves as weights. */
  lemma {:induction false} HeightsAreTheirLayout(heights: seq<real>, minimums: seq<real>, budget: real)
    requires Respects(heights, minimums, budget) && Sum(minimums) <= budget
    requires forall i :: 0 <= i < |minimums| ==> minimums[i] >= EPSILON
    ensures IsLayout(heights, heights, minimums, budget)
  {
    assert IsWaterFill(heights, Scaled(minimums, budget), Weights(heights), 1.0);
  }

  /** What the layout of a frame is before anything is dragged in it. */
  method LayOut(flex: seq<real>, budget: real, minimums: seq<real>) returns (extents: array<real>)
    requires |flex| == |minimums| > 0 && NonNegative(minimums) && budget >= 0.0 && !Overflows(minimums, budget)
    ensures fresh(extents) && IsLayout(extents[..], NormalizedFlex(flex), minimums, budget)
    ensures AtLeast(extents[..], Scaled(minimums, budget))
  {
    var heights := FlexExtentsWithMinimums(NormalizedFlex(flex), budget, minimums);
    extents := new real[|heights|](i requires 0 <= i < |heights| => heights[i]);
    assert extents[..] == heights;
  }

  /** Drags that never make the clamp panic, wherever the earlier ones have led. */
  ghost predicate NeverPanics(extents: seq<real>, minimums: seq<real>, budget: real, drags: seq<Drag>) {
    forall k :: 0 <= k < |drags| && drags[k].first + 1 < |extents| ==>
      DragAllowed(ApplyDrags(extents, minimums, budget, drags[..k]), minimums, budget, drags[k])
  }

  /** Minimums and a budget as the callers pass them. */
  predicate AsCalled(minimums: seq<real>, budget: real) {
    budget >= 1.0 && forall i :: 0 <= i < |minimums| ==> minimums[i] >= EPSILON
  }

  lemma {:induction false} CalledDragsNeverPanic(
    extents: seq<real>, minimums: seq<real>, budget: real, drags: seq<Drag>)
    requires AsCalled(minimums, budget) && |extents| == |minimums|
    ensures NeverPanics(extents, minimums, budget, drags)
  {
    forall k | 0 <= k < |drags| && drags[k].first + 1 < |extents|
      ensures DragAllowed(ApplyDrags(extents, minimums, budget, drags[..k]), minimums, budget, drags[k])
    {
      var now, i := ApplyDrags(extents, minimums, budget, drags[..k]), drags[k].first;
      CallersDoNotPanic(now[i] + now[i + 1], minimums[i], minimums[i + 1], budget);
    }
  }

  lemma {:induction false} CoveredDragsNeverPanic(
    extents: seq<real>, minimums: seq<real>, budget: real, drags: seq<Drag>)
    requires Respects(extents, minimums, budget)
    ensures NeverPanics(extents, minimums, budget, drags)
  {
    forall k | 0 <= k < |drags| && drags[k].first + 1 < |extents|
      ensures DragAllowed(ApplyDrags(extents, minimums, budget, drags[..k]), minimums, budget, drags[k])
    {
      DragsKeep(extents, minimums, budget, drags[..k], drags[k]);
    }
  }

  lemma {:induction false} DragsOneMore(start: seq<real>, minimums: seq<real>, budget: real, drags: seq<Drag>, k: nat)
    requires |start| == |minimums| && k < |drags| && NeverPanics(start, minimums, budget, drags)
    ensures var now, d := ApplyDrags(start, minimums, budget, drags[..k]), drags[k];
      if d.first + 1 < |now|
      then DragAllowed(now, minimums, budget, d)
           && ApplyDrags(start, minimums, budget, drags[..k + 1]) == ApplyDrag(now, minimums, budget, d)
      else ApplyDrags(start, minimums, budget, drags[..k + 1]) == now
  {
    assert drags[..k + 1][..k] == drags[..k];
  }

  /** One drag of the stack. */
  method DragInPlace(extents: array<real>, minimums: seq<real>, budget: real, d: Drag)
    requires DragAllowed(extents[..], minimums, budget, d)
    modifies extents
    ensures extents[..] == ApplyDrag(old(extents[..]), minimums, budget, d)
  {
    ClampPair(extents, d.first, d.delta, Min(minimums[d.first], budget), Min(minimums[d.first + 1], budget));
  }

  /** All drags of one frame, each applied in place. */
  method ApplyInPlace(extents: array<real>, minimums: seq<real>, budget: real, drags: seq<Drag>)
    requires extents.Length == |minimums| && NeverPanics(extents[..], minimums, budget, drags)
    modifies extents
    ensures extents[..] == ApplyDrags(old(extents[..]), minimums, budget, drags)
  {
    ghost var start := extents[..];
    for k := 0 to |drags|
      invariant extents[..] == ApplyDrags(start, minimums, budget, drags[..k])
    {
      var d := drags[k];
      DragsOneMore(start, minimums, budget, drags, k);
      if d.first + 1 < extents.Length {
        DragInPlace(extents, minimums, budget, d);
      }
    }
    assert drags[..|drags|] == drags;
  }

  /** A budget below the minimums leaves no choice: the layout is the scaled minimums, whatever the weights. */
  lemma {:induction false} TightLayout(extents: seq<real>, flex: seq<real>, minimums: seq<real>, budget: real)
    requires IsLayout(extents, flex, minimums, budget) && NonNegative(minimums)
    requires EPSILON < Sum(minimums) && 0.0 <= budget <= Sum(minimums)
    ensures extents == Scaled(minimums, budget)
  {
    var scaled := Scaled(minimums, budget);
    var level :| IsWaterFill(extents, scaled, Weights(flex), level);
    assert Sum(scaled) == budget by {
      if budget < Sum(minimums) {
        ScaledSum(minimums, budget);
      }
    }
    EqualSums(extents, scaled);
  }

  /** What a frame promises, from its layout `start` and its drags. */
  ghost predicate IsFrame(heights: seq<real>, start: seq<real>, minimums: seq<real>, budget: real, drags: seq<Drag>) {
    && heights == ApplyDrags(start, minimums, budget, drags) && Sum(heights) == budget
    && (Sum(minimums) <= budget ==> Respects(heights, minimums, budget))
  }

  lemma {:induction false} FrameIs(start: seq<real>, minimums: seq<real>, budget: real, drags: seq<Drag>)
    requires |start| == |minimums| && NonNegative(minimums) && Sum(start) == budget
    requires Sum(minimums) <= budget ==> AtLeast(start, minimums)
    ensures IsFrame(ApplyDrags(start, minimums, budget, drags), start, minimums, budget, drags)
  {
    DragsKeepTotal(start, minimums, budget, drags);
    if Sum(minimums) <= budget {
      DragsKeep(start, minimums, budget, drags, Drag(0, 0.0));
    }
  }

  /** One frame: the layout, then its drags in place. */
  method LayOutAndDrag(flex: seq<real>, budget: real, minimums: seq<real>, drags: seq<Drag>)
    returns (extents: array<real>, ghost start: seq<real>)
    requires |flex| == |minimums| > 0 && NonNegative(minimums)
    requires Sum(minimums) <= budget || AsCalled(minimums, budget)
    ensures fresh(extents) && IsLayout(start, NormalizedFlex(flex), minimums, budget)
    ensures IsFrame(extents[..], start, minimums, budget, drags)
  {
    NonNegativeSum(minimums);
    extents := LayOut(flex, budget, minimums);
    start := extents[..];
    if Sum(minimums) <= budget {
      CoveredDragsNeverPanic(start, minimums, budget, drags);
    } else {
      CalledDragsNeverPanic(start, minimums, budget, drags);
    }
    FrameIs(start, minimums, budget, drags);
    ApplyInPlace(extents, minimums, budget, drags);
  }

  /** The heights that one frame leaves. */
  method Frame(flex: seq<real>, budget: real, minimums: seq<real>, drags: seq<Drag>)
    returns (heights: seq<real>, ghost start: seq<real>)
    requires |flex| == |minimums| > 0 && AsCalled(minimums, budget)
    ensures IsLayout(start, NormalizedFlex(flex), minimums, budget)
    ensures IsFrame(heights, start, minimums, budget, drags)
  {
    var extents;
    extents, start := LayOutAndDrag(flex, budget, minimums, drags);
    heights := extents[..];
  }

  /** The drags of all frames, in order. */
  function Flat(frames: seq<seq<Drag>>): seq<Drag> {
    if frames == [] then [] else Flat(frames[..|frames| - 1]) + frames[|frames| - 1]
  }

  /** The drags that still count after some frames: all of them, or, in a tight budget, those of the last frame. */
  function Counting(frames: seq<seq<Drag>>, minimums: seq<real>, budget: real): seq<Drag> {
    if Sum(minimums) <= budget then Flat(frames)
    else if frames == [] then [] else frames[|frames| - 1]
  }

  /** The heights and the stored weights after some frames. */
  ghost predicate AfterFrames(
    start: seq<real>, heights: seq<real>, flex: seq<real>, first: seq<real>, minimums: seq<real>, budget: real,
    frames: seq<seq<Drag>>)
  {
    && |flex| == |minimums|
    && IsFrame(heights, start, minimums, budget, Counting(frames, minimums, budget))
    && (Sum(minimums) <= budget ==> flex == heights || (flex == first && Flat(frames) == []))
  }

  /** With a budget that covers the minimums the next frame begins where the last one ended. */
  lemma {:induction false} NextFrame(
    start: seq<real>, heights: seq<real>, flex: seq<real>, first: seq<real>, minimums: seq<real>, budget: real,
    frames: seq<seq<Drag>>, next: seq<real>)
    requires |minimums| > 0 && AsCalled(minimums, budget) && Sum(minimums) <= budget
    requires IsLayout(start, NormalizedFlex(first), minimums, budget)
    requires AfterFrames(start, heights, flex, first, minimums, budget, frames)
    requires IsLayout(next, NormalizedFlex(flex), minimums, budget)
    ensures next == heights
  {
    if flex == heights {
      HeightsAreTheirLayout(heights, minimums, budget);
      LayoutUnique(next, heights, heights, minimums, budget);
    } else {
      LayoutUnique(next, start, NormalizedFlex(first), minimums, budget);
    }
  }

  /** One more frame, from the layout `next` of the stored weights. */
  lemma {:induction false} OneMoreFrame(
    start: seq<real>, heights: seq<real>, flex: seq<real>, first: seq<real>, minimums: seq<real>, budget: real,
    frames: seq<seq<Drag>>, next: seq<real>, drags: seq<Drag>)
    requires |minimums| > 0 && NonNegative(minimums) && AsCalled(minimums, budget)
    requires IsLayout(start, NormalizedFlex(first), minimums, budget)
    requires AfterFrames(start, heights, flex, first, minimums, budget, frames)
    requires IsLayout(next, NormalizedFlex(flex), minimums, budget)
    requires IsFrame(ApplyDrags(next, minimums, budget, drags), next, minimums, budget, drags)
    ensures IsFrame(ApplyDrags(next, minimums, budget, drags), start, minimums, budget,
                    Counting(frames + [drags], minimums, budget))
  {
    assert (frames + [drags])[..|frames|] == frames;
    if Sum(minimums) <= budget {
      NextFrame(start, heights, flex, first, minimums, budget, frames, next);
      ApplyDragsConcat(start, minimums, budget, Flat(frames), drags);
    } else {
      TightLayout(start, NormalizedFlex(first), minimums, budget);
      TightLayout(next, NormalizedFlex(flex), minimums, budget);
    }
  }

  /** And the weights it stores. */
  lemma {:induction false} FrameKeeps(
    start: seq<real>, heights: seq<real>, flex: seq<real>, first: seq<real>, minimums: seq<real>, budget: real,
    frames: seq<seq<Drag>>, next: seq<real>, drags: seq<Drag>)
    requires |minimums| > 0 && NonNegative(minimums) && AsCalled(minimums, budget)
    requires IsLayout(start, NormalizedFlex(first), minimums, budget)
    requires AfterFrames(start, heights, flex, first, minimums, budget, frames)
    requires IsLayout(next, NormalizedFlex(flex), minimums, budget)
    requires IsFrame(ApplyDrags(next, minimums, budget, drags), next, minimums, budget, drags)
    ensures var heights' := ApplyDrags(next, minimums, budget, drags);
      AfterFrames(start, heights', if drags != [] then heights' else flex, first, minimums, budget, frames + [drags])
  {
    OneMoreFrame(start, heights, flex, first, minimums, budget, frames, next, drags);
    assert (frames + [drags])[..|frames|] == frames;
    if Sum(minimums) <= budget {
      NextFrame(start, heights, flex, first, minimums, budget, frames, next);
      assert drags == [] ==> Flat(frames) + drags == Flat(frames);
    }
  }

  lemma {:induction false} NoFrameYet(start: seq<real>, flex: seq<real>, minimums: seq<real>, budget: real)
    requires |flex| == |minimums| && IsFrame(start, start, minimums, budget, [])
    ensures AfterFrames(start, start, flex, flex, minimums, budget, [])
  {}

  /** The first layout of a session, and the session so far. */
  ghost predicate IsSession(
    start: seq<real>, heights: seq<real>, stored: seq<real>, flex: seq<real>, minimums: seq<real>, budget: real,
    frames: seq<seq<Drag>>)
  {
    && IsLayout(start, NormalizedFlex(flex), minimums, budget)
    && AfterFrames(start, heights, stored, flex, minimums, budget, frames)
  }

  /** With a budget below the minimums no drag outlives its frame: every frame begins from the scaled minimums. */
  lemma {:induction false} TightSession(
    start: seq<real>, heights: seq<real>, stored: seq<real>, flex: seq<real>, minimums: seq<real>, budget: real,
    frames: seq<seq<Drag>>)
    requires AsCalled(minimums, budget) && budget < Sum(minimums)
    requires IsSession(start, heights, stored, flex, minimums, budget, frames)
    ensures start == Scaled(minimums, budget)
    ensures var last := if frames == [] then [] else frames[|frames| - 1];
      heights == ApplyDrags(Scaled(minimums, budget), minimums, budget, last)
  {
    TightLayout(start, NormalizedFlex(flex), minimums, budget);
  }

  /** The frame in which nothing has been dragged yet. */
  method FirstFrame(flex: seq<real>, budget: real, minimums: seq<real>)
    returns (heights: seq<real>, ghost start: seq<real>)
    requires |flex| == |minimums| > 0 && AsCalled(minimums, budget)
    ensures IsSession(start, heights, flex, flex, minimums, budget, [])
  {
    heights, start := Frame(flex, budget, minimums, []);
    NoFrameYet(start, flex, minimums, budget);
  }

  method OneFrame(
    flex: seq<real>, budget: real, minimums: seq<real>, weights: seq<real>, drags: seq<Drag>,
    ghost start: seq<real>, ghost before: seq<real>, ghost frames: seq<seq<Drag>>, ghost now: seq<seq<Drag>>)
    returns (heights: seq<real>, stored: seq<real>)
    requires |flex| == |minimums| > 0 && AsCalled(minimums, budget) && now == frames + [drags]
    requires IsSession(start, before, weights, flex, minimums, budget, frames)
    ensures IsSession(start, heights, stored, flex, minimums, budget, now)
  {
    ghost var next;
    heights, next := Frame(weights, budget, minimums, drags);
    FrameKeeps(start, before, weights, flex, minimums, budget, frames, next, drags);
    stored := if drags != [] then heights else weights;
  }

  /**
   * The stack over any number of frames. Each frame lays the panels out anew from the stored
   * weights, applies its drags in place, and stores the heights as weights if there were any.
   * The heights always fill the budget. If it covers the minimums they keep them, and are as if
   * all drags had been applied, one after the other, to the first layout. If it does
   * not, every layout is the scaled minimums, and only the drags of the last frame show.
   */
  method Frames(flex: seq<real>, budget: real, minimums: seq<real>, frames: seq<seq<Drag>>)
    returns (heights: seq<real>, stored: seq<real>)
    requires |flex| == |minimums| > 0 && AsCalled(minimums, budget)
    ensures exists start :: IsSession(start, heights, stored, flex, minimums, budget, frames)
  {
    ghost var start;
    heights, start := FirstFrame(flex, budget, minimums);
    stored := flex;
    assert frames[..|frames|] == frames;
    for k := 0 to |frames|
      invariant IsSession(start, heights, stored, flex, minimums, budget, frames[..k])
    {
      assert frames[..k + 1] == frames[..k] + [frames[k]];
      heights, stored := OneFrame(
        flex, budget, minimums, stored, frames[k], start, heights, frames[..k], frames[..k + 1]);
    }
  }

  // ---------------------------------------------------------------------------
  // The two columns
  // ---------------------------------------------------------------------------

  const GRAPH_PANEL_MIN_WIDTH: real := 310.0
  const METRICS_TABLE_MIN_WIDTH: real := 460.0

  /** Space divided by weight alone. */
  function FlexExtents(flex: seq<real>, available: real): (r: seq<real>)
    ensures |r| == |flex|
  {
    var total := Max(Sum(flex), EPSILON);
    seq(|flex|, i requires 0 <= i < |flex| => Share(available, flex[i], total))
  }

  lemma {:induction false} ShareIsBy(available: real, weight: real, total: real)
    requires total > 0.0
    ensures Share(available, weight, total) == By(available / total)(weight)
  {
    ShareMul(available, weight, total);
  }

  lemma {:induction false} FlexExtentsScale(flex: seq<real>, available: real)
    requires Sum(flex) > EPSILON
    ensures FlexExtents(flex, available) == ScaleAll(flex, available / Sum(flex))
  {
    var f, total := By(available / Sum(flex)), Sum(flex);
    forall i | 0 <= i < |flex| ensures FlexExtents(flex, available)[i] == Map(f, flex)[i] {
      ShareIsBy(available, flex[i], total);
      MapAt(f, flex, i);
    }
  }

  lemma {:induction false} FlexExtentsFill(flex: seq<real>, available: real)
    requires Sum(flex) > EPSILON
    ensures Sum(FlexExtents(flex, available)) == available
  {
    FlexExtentsScale(flex, available);
    ScaleAllSum(flex, available / Sum(flex));
    assert Sum(flex) * (available / Sum(flex)) == available;
  }

  /** The minimums of the two columns, scaled down together if they do not fit. */
  function ColumnMinimums(budget: real): Pair {
    PairMinimums(budget, Min(GRAPH_PANEL_MIN_WIDTH, budget), Min(METRICS_TABLE_MIN_WIDTH, budget))
  }

  lemma {:induction false} SumOfTwo(xs: seq<real>)
    requires |xs| == 2
    ensures Sum(xs) == xs[0] + xs[1]
  {
    assert Sum(xs[..1]) == Sum(xs[..1][..0]) + xs[0];
    assert xs[..1][..0] == [];
  }

  /**
   * The two columns: divided by weight, pushed to their minimums, then dragged by `delta`. They
   * always fill the budget, and each keeps its minimum, scaled if both do not fit.
   */
  method SplitColumns(columns: seq<real>, budget: real, delta: real) returns (widths: array<real>)
    requires |columns| == 2 && budget >= 1.0
    ensures widths.Length == 2 && widths[0] + widths[1] == budget
    ensures widths[0] >= ColumnMinimums(budget).first && widths[1] >= ColumnMinimums(budget).second
    ensures budget >= GRAPH_PANEL_MIN_WIDTH + METRICS_TABLE_MIN_WIDTH ==>
      widths[0] >= GRAPH_PANEL_MIN_WIDTH && widths[1] >= METRICS_TABLE_MIN_WIDTH
  {
    var divided := FlexExtents(NormalizedFlex(columns), budget);
    NormalizedSum(columns);
    FlexExtentsFill(NormalizedFlex(columns), budget);
    SumOfTwo(divided);
    widths := new real[2](i requires 0 <= i < 2 => divided[i]);
    CallersDoNotPanic(budget, GRAPH_PANEL_MIN_WIDTH, METRICS_TABLE_MIN_WIDTH, budget);
    ClampPair(widths, 0, 0.0, Min(GRAPH_PANEL_MIN_WIDTH, budget), Min(METRICS_TABLE_MIN_WIDTH, budget));
    if delta != 0.0 {
      ClampPair(widths, 0, delta, Min(GRAPH_PANEL_MIN_WIDTH, budget), Min(METRICS_TABLE_MIN_WIDTH, budget));
    }
  }
}
