/**
 * randInt(min, max): a random integer in the inclusive range between the two
 * bounds, which may be given in either order.
 *
 * The uniform draw `Math.floor(Math.random() * (hi - lo + 1))` is replaced by
 * an arbitrary offset `k` in [0, hi - lo] supplied by the caller.
 */
module RandomRange {

  /** The smaller bound. */
  function Low(a: int, b: int): int
  {
    if a <= b then a else b
  }

  /** The larger bound. */
  function High(a: int, b: int): int
  {
    if a <= b then b else a
  }

  /** The offsets a uniform draw over the range of `min` and `max` can produce. */
  predicate Fits(min: int, max: int, k: int)
  {
    0 <= k <= High(min, max) - Low(min, max)
  }

  /** randInt with the draw `k`: the bounds are swapped when reversed, then `lo + k`. */
  function RandInt(min: int, max: int, k: int): (r: int)
    requires Fits(min, max, k)
    ensures Low(min, max) <= r <= High(min, max)
  {
    var (lo, hi) := if min > max then (max, min) else (min, max);
    lo + k
  }

  /** `r` is a value randInt(min, max) can return for some draw. */
  ghost predicate CanReturn(min: int, max: int, r: int)
  {
    exists k :: Fits(min, max, k) && RandInt(min, max, k) == r
  }

  /** The possible results are exactly the integers of the inclusive range. */
  lemma CanReturnIffInRange(min: int, max: int, r: int)
    ensures CanReturn(min, max, r) <==> Low(min, max) <= r <= High(min, max)
  {
    if Low(min, max) <= r <= High(min, max) {
      var k := r - Low(min, max);
      assert Fits(min, max, k) && RandInt(min, max, k) == r;
    }
  }

  /** Reversed bounds are swapped first: the draw means the same as with ordered bounds. */
  lemma ReversedBoundsAreSwapped(min: int, max: int, k: int)
    requires min > max && Fits(min, max, k)
    ensures Fits(max, min, k) && RandInt(min, max, k) == RandInt(max, min, k)
  {
  }

  /** randInt(a, b) and randInt(b, a) can return the same values. */
  lemma ArgumentOrderIrrelevant(a: int, b: int, r: int)
    ensures CanReturn(a, b, r) <==> CanReturn(b, a, r)
  {
    CanReturnIffInRange(a, b, r);
    CanReturnIffInRange(b, a, r);
  }

  /** A one-value range always yields that value. */
  lemma SingletonRange(a: int, k: int)
    requires Fits(a, a, k)
    ensures RandInt(a, a, k) == a
  {
  }
}
