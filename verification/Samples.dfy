/** Streaks at the end of a series of readings. */
module Samples {

  /** How many readings at the end are at least the bound. */
  function TrailingAtLeast(samples: seq<real>, bound: real): nat {
    if samples == [] || samples[|samples| - 1] < bound then 0 else TrailingAtLeast(samples[..|samples| - 1], bound) + 1
  }

  /** How many readings at the end are below the bound. */
  function TrailingBelow(samples: seq<real>, bound: real): nat {
    if samples == [] || samples[|samples| - 1] >= bound then 0 else TrailingBelow(samples[..|samples| - 1], bound) + 1
  }

  /** The last n readings are all at least the bound. */
  ghost predicate LastAtLeast(samples: seq<real>, n: int, bound: real) {
    n <= |samples| && forall i :: 0 <= |samples| - n <= i < |samples| ==> samples[i] >= bound
  }

  /** The last n readings are all below the bound. */
  ghost predicate LastBelow(samples: seq<real>, n: int, bound: real) {
    n <= |samples| && forall i :: 0 <= |samples| - n <= i < |samples| ==> samples[i] < bound
  }

  lemma {:induction false} AtLeastExactly(samples: seq<real>, n: int, bound: real)
    ensures TrailingAtLeast(samples, bound) >= n <==> LastAtLeast(samples, n, bound)
  {
    if samples != [] && n > 0 {
      var last := |samples| - 1;
      AtLeastExactly(samples[..last], n - 1, bound);
      if LastAtLeast(samples, n, bound) {
        assert samples[last] >= bound && LastAtLeast(samples[..last], n - 1, bound);
      }
    }
  }

  lemma {:induction false} BelowExactly(samples: seq<real>, n: int, bound: real)
    ensures TrailingBelow(samples, bound) >= n <==> LastBelow(samples, n, bound)
  {
    if samples != [] && n > 0 {
      var last := |samples| - 1;
      BelowExactly(samples[..last], n - 1, bound);
      if LastBelow(samples, n, bound) {
        assert samples[last] < bound && LastBelow(samples[..last], n - 1, bound);
      }
    }
  }
}
