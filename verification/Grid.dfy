/** Stepped frame ranges: the frames start, start+step, ... that do not pass end. */
module Grid {

  /** How many frames the range has.  Python's `//` and Dafny's `/` agree for a positive divisor. */
  function Count(start: int, end: int, step: int): (n: nat)
    requires step >= 1
  {
    if end >= start then (end - start) / step + 1 else 0
  }

  /** Python's range(start, end + 1, step). */
  function Frames(start: int, end: int, step: int): seq<int>
    requires step >= 1
    decreases if start > end then 0 else end - start + 1
  {
    if start > end then [] else [start] + Frames(start + step, end, step)
  }

  function Min(a: int, b: int): int {
    if a <= b then a else b
  }

  function Max(a: int, b: int): int {
    if a >= b then a else b
  }

  lemma CountStep(start: int, end: int, step: int)
    requires step >= 1 && start <= end
    ensures Count(start, end, step) == 1 + Count(start + step, end, step)
  {
    if start + step <= end {
      assert (end - start) / step == (end - (start + step)) / step + 1 by {
        DivShift(end - (start + step), step);
      }
    } else {
      assert (end - start) / step == 0 by { SmallDiv(end - start, step); }
    }
  }

  lemma DivShift(a: int, step: int)
    requires step >= 1 && a >= 0
    ensures (a + step) / step == a / step + 1
  {
    var q, r := a / step, a % step;
    assert a + step == (q + 1) * step + r;
    DivUnique(a + step, step, q + 1, r);
  }

  lemma DivUnique(a: int, step: int, q: int, r: int)
    requires step >= 1 && 0 <= r < step && a == q * step + r
    ensures a / step == q && a % step == r
  {
    var q', r' := a / step, a % step;
    assert a == q' * step + r';
    assert (q - q') * step == r' - r;
    if q > q' {
      assert (q - q') * step >= step by { MulMono(q - q', step); }
      assert false;
    } else if q < q' {
      assert (q' - q) * step >= step by { MulMono(q' - q, step); }
      assert false;
    }
  }

  lemma MulMono(k: int, step: int)
    requires k >= 1 && step >= 0
    ensures k * step >= step
  {
    assert k * step == (k - 1) * step + step;
  }

  lemma SmallDiv(a: int, step: int)
    requires 0 <= a < step
    ensures a / step == 0
  {
    DivUnique(a, step, 0, a);
  }

  /** The closed form for the count is the length of the enumeration. */
  lemma {:induction false} FramesLength(start: int, end: int, step: int)
    requires step >= 1
    ensures |Frames(start, end, step)| == Count(start, end, step)
    decreases if start > end then 0 else end - start + 1
  {
    if start <= end {
      FramesLength(start + step, end, step);
      CountStep(start, end, step);
    }
  }

  lemma {:induction false} FrameAt(start: int, end: int, step: int, i: nat)
    requires step >= 1 && i < |Frames(start, end, step)|
    ensures Frames(start, end, step)[i] == start + i * step
    decreases i
  {
    if i > 0 {
      FrameAt(start + step, end, step, i - 1);
      assert start + step + (i - 1) * step == start + i * step;
    }
  }

  /** Every frame of the range lies in it, and later frames are larger. */
  lemma {:induction false} FramesBounded(start: int, end: int, step: int)
    requires step >= 1
    ensures forall f :: f in Frames(start, end, step) ==> start <= f <= end
    ensures forall i, j :: 0 <= i < j < |Frames(start, end, step)| ==> Frames(start, end, step)[i] < Frames(start, end, step)[j]
    decreases if start > end then 0 else end - start + 1
  {
    if start <= end {
      FramesBounded(start + step, end, step);
      var fs, rest := Frames(start, end, step), Frames(start + step, end, step);
      forall i, j | 0 <= i < j < |fs| ensures fs[i] < fs[j] {
        assert fs[j] == rest[j - 1];
        assert rest[j - 1] in rest;
        if i > 0 { assert fs[i] == rest[i - 1]; }
      }
    }
  }

  /** The last frame of the first k frames, or the end of the range if it comes sooner. */
  function Cut(start: int, end: int, step: int, k: int): int {
    Min(start + (k - 1) * step, end)
  }

  lemma CutShift(start: int, end: int, step: int, k: int)
    requires step >= 1 && k >= 2
    ensures Cut(start + step, end, step, k - 1) == Cut(start, end, step, k)
    ensures start <= end ==> start <= Cut(start, end, step, k)
  {
    assert start + step + (k - 2) * step == start + (k - 1) * step;
    MulMono(k - 1, step);
  }

  lemma CutEmpty(start: int, end: int, step: int, k: int)
    requires step >= 1 && k >= 1 && start > end
    ensures Cut(start, end, step, k) == end
  {
    if k > 1 { MulMono(k - 1, step); }
  }

  /** Cutting a range after its first k frames, or at its end if it has fewer, loses and repeats nothing. */
  lemma {:induction false} SplitAt(start: int, end: int, step: int, k: int)
    requires step >= 1 && k >= 1
    ensures var cut := Cut(start, end, step, k);
      Frames(start, end, step) == Frames(start, cut, step) + Frames(cut + step, end, step)
    decreases k
  {
    if start > end {
      CutEmpty(start, end, step, k);
    } else if k == 1 {
      assert Frames(start, start, step) == [start] + Frames(start + step, start, step);
    } else {
      SplitAt(start + step, end, step, k - 1);
      CutShift(start, end, step, k);
      SplitStep(start, Cut(start, end, step, k), end, step);
    }
  }

  lemma SplitStep(start: int, cut: int, end: int, step: int)
    requires step >= 1 && start <= end && start <= cut
    requires Frames(start + step, end, step) == Frames(start + step, cut, step) + Frames(cut + step, end, step)
    ensures Frames(start, end, step) == Frames(start, cut, step) + Frames(cut + step, end, step)
  {
    assert [start] + (Frames(start + step, cut, step) + Frames(cut + step, end, step))
        == ([start] + Frames(start + step, cut, step)) + Frames(cut + step, end, step);
  }

  /** The part cut off by SplitAt has k frames, or all of them. */
  lemma {:induction false} CutCount(start: int, end: int, step: int, k: int)
    requires step >= 1 && k >= 1
    ensures var cut := Cut(start, end, step, k);
      Count(start, cut, step) == Min(k, Count(start, end, step))
      && Count(cut + step, end, step) == Count(start, end, step) - Min(k, Count(start, end, step))
    decreases k
  {
    if start > end {
      CutEmpty(start, end, step, k);
    } else {
      CountStep(start, end, step);
      if k == 1 {
        CountStep(start, start, step);
      } else {
        CutCount(start + step, end, step, k - 1);
        CutShift(start, end, step, k);
        CountStep(start, Cut(start, end, step, k), step);
      }
    }
  }
}
