/**
 * The output window of limit-output.ts: `limitArray(length)` takes the
 * first of the `--skip` and `--limit` values, consumes them (a list of one
 * value keeps it for every later call), and returns a checker that says
 * which indices of an array of that length are printed.
 */
module LimitOutput {

  /**
   * The checker `limitArray` returns: `idx => idx >= skip && idx < limit`
   * with both bounds fixed when it was made. It is a value: calling it
   * reads and changes no state.
   */
  datatype Window = Window(lo: int, hi: int) {
    predicate Accepts(idx: int) {
      lo <= idx && idx < hi
    }
  }

  /**
   * The bounds for one `--skip` value and one `--limit` value: a negative
   * skip counts from the end, a negative limit means up to the end, and a
   * non-negative limit counts from the skip.
   */
  function Bounds(skip: int, limit: int, length: nat): Window {
    var lo := if skip < 0 then length + skip else skip;
    Window(lo, if limit < 0 then length else lo + limit)
  }

  /** The indices of an array of `length` elements the checker accepts. */
  function Shown(w: Window, length: nat): set<int> {
    set idx | 0 <= idx < length && w.Accepts(idx)
  }

  function Max(a: int, b: int): int {
    if a < b then b else a
  }

  function Min(a: int, b: int): int {
    if a < b then a else b
  }

  /** A window shows the indices from its lower bound, but not before 0, up to its upper bound, but not past the end. */
  lemma {:induction false} ShownSize(w: Window, length: nat)
    ensures |Shown(w, length)| == Max(0, Min(w.hi, length) - Max(w.lo, 0))
    decreases w.hi - w.lo
  {
    if Max(w.lo, 0) < Min(w.hi, length) {
      var top := Min(w.hi, length) - 1;
      var smaller := Window(w.lo, top);
      ShownSize(smaller, length);
      assert Shown(w, length) == Shown(smaller, length) + {top};
    } else {
      assert Shown(w, length) == {};
    }
  }

  /**
   * The printed indices form one contiguous range: from the skip (or
   * `length` plus a negative skip), but not before 0, up to the skip plus a
   * non-negative limit, but not past the end.
   */
  lemma ShownRange(skip: int, limit: int, length: nat, idx: int)
    ensures var lo := if skip < 0 then length + skip else skip;
            var hi := if limit < 0 then length else Min(lo + limit, length);
            idx in Shown(Bounds(skip, limit, length), length) <==> Max(lo, 0) <= idx < hi
  {
  }

  /** Nothing between two printed indices is left out. */
  lemma ShownContiguous(w: Window, length: nat, i: int, j: int, k: int)
    requires i in Shown(w, length) && k in Shown(w, length) && i <= j <= k
    ensures j in Shown(w, length)
  {
  }

  /**
   * How many indices are printed: at most `limit` when it is non-negative;
   * with a negative limit, everything after a non-negative skip, or the
   * last `-skip` entries for a negative skip.
   */
  lemma ShownCount(skip: int, limit: int, length: nat)
    ensures limit >= 0 ==> |Shown(Bounds(skip, limit, length), length)| <= limit
    ensures limit < 0 && skip >= 0 ==> |Shown(Bounds(skip, limit, length), length)| == Max(0, length - skip)
    ensures limit < 0 && skip < 0 ==> |Shown(Bounds(skip, limit, length), length)| == Min(-skip, length)
  {
    ShownSize(Bounds(skip, limit, length), length);
  }

  /** A negative skip with no limit prints exactly the last `-skip` indices (all when there are fewer). */
  lemma LastEntries(skip: int, length: nat, idx: int)
    requires skip < 0
    ensures idx in Shown(Bounds(skip, -1, length), length) <==> Max(length + skip, 0) <= idx < length
  {
  }

  /** What `if (xs.length > 1) xs.shift()` leaves of a list. */
  function Consume(xs: seq<int>): (rest: seq<int>)
    requires xs != []
    ensures rest != [] && rest[|rest| - 1] == xs[|xs| - 1]
  {
    if |xs| > 1 then xs[1..] else xs
  }

  /** The list after `k` calls of `limitArray`. */
  function ConsumeTimes(xs: seq<int>, k: nat): (rest: seq<int>)
    requires xs != []
    ensures rest != []
  {
    if k == 0 then xs else ConsumeTimes(Consume(xs), k - 1)
  }

  /**
   * After `k` calls the list has lost its first `k` values, but never its
   * last one, so the call after that uses value `k`, or the last value for
   * every call once the list has run out.
   */
  lemma {:induction false} ConsumeTimesDrops(xs: seq<int>, k: nat)
    requires xs != []
    ensures ConsumeTimes(xs, k) == xs[Min(k, |xs| - 1)..]
    ensures ConsumeTimes(xs, k)[0] == xs[Min(k, |xs| - 1)]
  {
    if k > 0 {
      ConsumeTimesDrops(Consume(xs), k - 1);
      if |xs| > 1 {
        assert xs[1..][Min(k - 1, |xs| - 2)..] == xs[Min(k, |xs| - 1)..];
      }
    }
  }

  /** The module's `options`: the `--skip` and `--limit` lists, consumed call by call. */
  class Limiter {
    var skip: seq<int>
    var limit: seq<int>

    /** Each list still holds a value for the next call. */
    ghost predicate Valid()
      reads this
    {
      skip != [] && limit != []
    }

    /** `setLimiterOptions(opts)` (limit-output.ts:7-9) with the option lists. */
    constructor(skip: seq<int>, limit: seq<int>)
      requires skip != [] && limit != []
      ensures Valid() && this.skip == skip && this.limit == limit
    {
      this.skip := skip;
      this.limit := limit;
    }

    /**
     * `limitArray(length)` (limit-output.ts:17-40): the window of the
     * first skip and limit values, which are consumed unless they are the
     * last of their list.
     */
    method LimitArray(length: nat) returns (w: Window)
      requires Valid()
      modifies this
      ensures Valid()
      ensures w == Bounds(old(skip)[0], old(limit)[0], length)
      ensures skip == Consume(old(skip)) && limit == Consume(old(limit))
    {
      var s := skip[0];
      var l := limit[0];
      if |skip| > 1 {
        skip := skip[1..];
      }
      if |limit| > 1 {
        limit := limit[1..];
      }
      if s < 0 {
        s := length + s;
      }
      if l < 0 {
        l := length;
      } else {
        l := s + l;
      }
      w := Window(s, l);
    }
  }
}
