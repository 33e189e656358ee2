/** The byte-progress callback of a single-file upload: the closure
    `bytes_count` adds each reported size to a captured running total and
    then passes that running total, not the size, to the progress bar's
    `update`, which adds its argument to the bar's position. */
module Progress {

  /** Every size reported is non-negative. */
  predicate NonNegative(sizes: seq<int>) {
    forall k :: 0 <= k < |sizes| ==> sizes[k] >= 0
  }

  /** The sum `s1 + ... + sk` of the sizes reported so far. */
  function Total(sizes: seq<int>): int {
    if sizes == [] then 0 else Total(sizes[..|sizes| - 1]) + sizes[|sizes| - 1]
  }

  /** The arguments of the successive `update` calls: after the k-th
      callback, the total of the first k sizes. */
  function RunningTotals(sizes: seq<int>): (r: seq<int>)
    ensures |r| == |sizes|
    ensures forall k :: 0 <= k < |r| ==> r[k] == Total(sizes[..k + 1])
  {
    if sizes == [] then []
    else
      var init := sizes[..|sizes| - 1];
      var r := RunningTotals(init) + [Total(sizes)];
      assert forall k :: 0 <= k < |r| ==> r[k] == Total(sizes[..k + 1]) by {
        forall k | 0 <= k < |r| ensures r[k] == Total(sizes[..k + 1]) {
          if k < |init| {
            assert init[..k + 1] == sizes[..k + 1];
          } else {
            assert sizes[..k + 1] == sizes;
          }
        }
      }
      r
  }

  /** Where the bar stands after the callbacks: each callback advances it
      by the running total at that point. */
  function BarPosition(sizes: seq<int>): int {
    if sizes == [] then 0 else BarPosition(sizes[..|sizes| - 1]) + Total(sizes)
  }

  /** The bar's position is the sum of the running totals handed to
      `update`, in order. */
  lemma {:induction false} BarPositionSumsRunningTotals(sizes: seq<int>)
    ensures BarPosition(sizes) == Total(RunningTotals(sizes))
  {
    if sizes != [] {
      var init := sizes[..|sizes| - 1];
      BarPositionSumsRunningTotals(init);
      var rs := RunningTotals(sizes);
      assert rs == RunningTotals(init) + [Total(sizes)];
      assert rs[..|rs| - 1] == RunningTotals(init);
    }
  }

  /** A captured counter and the progress bar it drives. */
  class ByteProgress {
    /** `bytes_transferred` */
    var transferred: int
    /** the bar's position, `progress_bar.n` */
    var position: int
    /** the bar's `total`: the file size in bytes */
    const total: nat
    /** the sizes passed to the callback so far, oldest first */
    ghost var sizes: seq<int>

    ghost predicate Valid()
      reads this
    {
      transferred == Total(sizes) && position == BarPosition(sizes)
    }

    /** `bytes_transferred = 0` and a fresh bar of the given total. */
    constructor (total: nat)
      ensures Valid() && sizes == [] && this.total == total
      ensures transferred == 0 && position == 0
    {
      this.total := total;
      transferred, position := 0, 0;
      sizes := [];
    }

    /** `bytes_count(size)`: add the size to the counter, then advance
        the bar by the new value of the counter. */
    method Record(size: int)
      requires Valid()
      modifies this
      ensures Valid()
      ensures sizes == old(sizes) + [size]
      ensures transferred == old(transferred) + size
      ensures position == old(position) + transferred
      ensures size >= 0 ==> transferred >= old(transferred)
    {
      ghost var s := sizes + [size];
      assert s[..|s| - 1] == sizes;
      transferred := transferred + size;
      position := position + transferred;
      sizes := s;
    }
  }

  /** Adding non-negative sizes never makes a total smaller: the counter
      only grows, so the values handed to `update` never decrease. */
  lemma {:induction false} TotalPrefixMonotone(sizes: seq<int>, i: nat, j: nat)
    requires NonNegative(sizes) && i <= j <= |sizes|
    ensures Total(sizes[..i]) <= Total(sizes[..j])
    decreases j - i
  {
    if i < j {
      TotalPrefixMonotone(sizes, i, j - 1);
      assert sizes[..j][..j - 1] == sizes[..j - 1];
    }
  }

  /** The running totals given to the bar are non-decreasing. */
  lemma RunningTotalsSorted(sizes: seq<int>, i: nat, j: nat)
    requires NonNegative(sizes) && i <= j < |sizes|
    ensures RunningTotals(sizes)[i] <= RunningTotals(sizes)[j]
  {
    TotalPrefixMonotone(sizes, i + 1, j + 1);
  }

  /** A total of non-negative sizes is non-negative. */
  lemma {:induction false} TotalNonNegative(sizes: seq<int>)
    requires NonNegative(sizes)
    ensures Total(sizes) >= 0
  {
    if sizes != [] {
      TotalNonNegative(sizes[..|sizes| - 1]);
    }
  }

  /** Each callback advances the bar by the whole running total, so the
      bar never stands below the number of bytes transferred. */
  lemma {:induction false} BarPositionAtLeastTotal(sizes: seq<int>)
    requires NonNegative(sizes)
    ensures Total(sizes) <= BarPosition(sizes)
  {
    if sizes != [] {
      var init := sizes[..|sizes| - 1];
      BarPositionAtLeastTotal(init);
      TotalNonNegative(init);
    }
  }

  /** ... and never beyond that number times the number of callbacks. */
  lemma {:induction false} BarPositionAtMostScaledTotal(sizes: seq<int>)
    requires NonNegative(sizes)
    ensures BarPosition(sizes) <= |sizes| * Total(sizes)
  {
    if sizes != [] {
      var init := sizes[..|sizes| - 1];
      var x := sizes[|sizes| - 1];
      BarPositionAtMostScaledTotal(init);
      assert |init| * Total(sizes) == |init| * Total(init) + |init| * x;
      assert |init| * x >= 0;
    }
  }

  /** With non-negative sizes, the bar ends exactly at the number of bytes
      transferred if and only if every callback but the last reported
      zero bytes; otherwise it overshoots. */
  lemma BarMatchesCounterIffAllButLastEmpty(sizes: seq<int>)
    requires NonNegative(sizes)
    ensures BarPosition(sizes) == Total(sizes) <==> forall k :: 0 <= k < |sizes| - 1 ==> sizes[k] == 0
  {
    if sizes != [] {
      var init := sizes[..|sizes| - 1];
      assert NonNegative(init);
      BarZeroIffTotalZero(init);
      ZeroTotalIffAllZero(init);
      assert (forall k :: 0 <= k < |init| ==> init[k] == 0)
         <==> (forall k :: 0 <= k < |sizes| - 1 ==> sizes[k] == 0);
    }
  }

  /** For non-negative sizes the bar is still at zero exactly when no byte
      has been counted. */
  lemma {:induction false} BarZeroIffTotalZero(sizes: seq<int>)
    requires NonNegative(sizes)
    ensures BarPosition(sizes) == 0 <==> Total(sizes) == 0
  {
    if sizes != [] {
      var init := sizes[..|sizes| - 1];
      BarZeroIffTotalZero(init);
      BarPositionAtLeastTotal(init);
      TotalNonNegative(init);
    }
  }

  /** Non-negative sizes add up to zero exactly when all of them are zero. */
  lemma {:induction false} ZeroTotalIffAllZero(sizes: seq<int>)
    requires NonNegative(sizes)
    ensures Total(sizes) == 0 <==> forall k :: 0 <= k < |sizes| ==> sizes[k] == 0
  {
    if sizes != [] {
      var init := sizes[..|sizes| - 1];
      ZeroTotalIffAllZero(init);
      TotalNonNegative(init);
    }
  }

  /** Three callbacks of 10 bytes: 30 bytes transferred, bar at 60. */
  lemma ThreeCallbacksExample()
    ensures Total([10, 10, 10]) == 30 && RunningTotals([10, 10, 10]) == [10, 20, 30]
    ensures BarPosition([10, 10, 10]) == 60
  {
    assert [10, 10, 10][..2] == [10, 10];
    assert [10, 10][..1] == [10];
    assert [10][..0] == [];
    assert [10, 20, 30][..2] == [10, 20];
    assert [10, 20][..1] == [10];
  }
}
