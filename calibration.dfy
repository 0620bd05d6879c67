/** Choosing the clock offset from the samples of the two time sources and
    committing it to the process-wide calibration state. */
module Calibration {
  import opened JsNumber

  /** A sample that may be missing: `None` stands for a source whose request
      threw or whose result was not a finite number. */
  datatype Option<T> = None | Some(value: T)

  /** `.filter(Number.isFinite)`: the present samples, in their order. */
  function Finite(samples: seq<Option<int>>): (r: seq<int>)
    ensures |r| <= |samples|
    ensures r == [] <==> forall k :: 0 <= k < |samples| ==> samples[k].None?
    ensures forall x :: x in r ==> Some(x) in samples
    ensures forall k :: 0 <= k < |samples| && samples[k].Some? ==> samples[k].value in r
  {
    if samples == [] then []
    else
      var rest := Finite(samples[1..]);
      assert forall x :: Some(x) in samples[1..] ==> Some(x) in samples;
      assert forall k :: 1 <= k < |samples| ==> samples[k] == samples[1..][k - 1];
      match samples[0]
      case Some(x) => [x] + rest
      case None => rest
  }

  /** Ordered by the comparator `(a, b) => Math.abs(a) - Math.abs(b)`. */
  ghost predicate SortedByMagnitude(s: seq<int>) {
    forall i, j :: 0 <= i < j < |s| ==> Abs(s[i]) <= Abs(s[j])
  }

  /** Puts `x` in front of the first element whose magnitude is not smaller. */
  function Insert(x: int, s: seq<int>): (r: seq<int>)
    ensures |r| == |s| + 1
    ensures r[0] == if s == [] || Abs(x) <= Abs(s[0]) then x else s[0]
  {
    if s == [] || Abs(x) <= Abs(s[0]) then [x] + s else [s[0]] + Insert(x, s[1..])
  }

  /** The stable sort of `sort((a, b) => Math.abs(a) - Math.abs(b))`: each
      element is inserted in front of the later elements of equal magnitude. */
  function SortByMagnitude(xs: seq<int>): (r: seq<int>)
    ensures |r| == |xs|
  {
    if xs == [] then [] else Insert(xs[0], SortByMagnitude(xs[1..]))
  }

  /** Inserting into a sorted list keeps it sorted. */
  lemma {:induction false} InsertKeepsSorted(x: int, s: seq<int>)
    requires SortedByMagnitude(s)
    ensures SortedByMagnitude(Insert(x, s))
  {
    if s != [] && Abs(x) > Abs(s[0]) {
      var t := s[1..];
      assert SortedByMagnitude(t) by {
        assert forall i :: 0 <= i < |t| ==> t[i] == s[i + 1];
      }
      InsertKeepsSorted(x, t);
      var tail := Insert(x, t);
      assert forall j :: 0 <= j < |tail| ==> Abs(s[0]) <= Abs(tail[j]) by {
        assert Abs(s[0]) <= Abs(tail[0]);
      }
    }
  }

  /** Inserting adds exactly `x`. */
  lemma {:induction false} InsertAddsOne(x: int, s: seq<int>)
    ensures multiset(Insert(x, s)) == multiset(s) + multiset{x}
  {
    if s != [] && Abs(x) > Abs(s[0]) {
      InsertAddsOne(x, s[1..]);
      assert s == [s[0]] + s[1..];
    }
  }

  /** The sort orders its input by magnitude. */
  lemma {:induction false} SortIsSorted(xs: seq<int>)
    ensures SortedByMagnitude(SortByMagnitude(xs))
  {
    if xs != [] {
      SortIsSorted(xs[1..]);
      InsertKeepsSorted(xs[0], SortByMagnitude(xs[1..]));
    }
  }

  /** The sort neither loses nor invents a sample. */
  lemma {:induction false} SortIsPermutation(xs: seq<int>)
    ensures multiset(SortByMagnitude(xs)) == multiset(xs)
  {
    if xs != [] {
      SortIsPermutation(xs[1..]);
      InsertAddsOne(xs[0], SortByMagnitude(xs[1..]));
      assert xs == [xs[0]] + xs[1..];
    }
  }

  /** `xs[k]` has the smallest magnitude in `xs`, and every element before
      it is strictly larger in magnitude. */
  ghost predicate IsFirstSmallest(xs: seq<int>, k: int) {
    && 0 <= k < |xs|
    && (forall j :: 0 <= j < |xs| ==> Abs(xs[k]) <= Abs(xs[j]))
    && (forall j :: 0 <= j < k ==> Abs(xs[k]) < Abs(xs[j]))
  }

  /** Adding an element in front: it becomes the first smallest exactly
      when it is no larger than the old first smallest. */
  lemma ConsFirstSmallest(xs: seq<int>, k: int)
    requires |xs| > 1 && IsFirstSmallest(xs[1..], k)
    ensures IsFirstSmallest(xs, if Abs(xs[0]) <= Abs(xs[1..][k]) then 0 else k + 1)
  {
    assert forall j :: 1 <= j < |xs| ==> xs[j] == xs[1..][j - 1];
  }

  /** The head of the sorted candidates is the earliest sample of smallest
      magnitude: a tie goes to the sample that came first. */
  lemma {:induction false} SortHeadIsFirstSmallest(xs: seq<int>)
    requires xs != []
    ensures exists k :: IsFirstSmallest(xs, k) && SortByMagnitude(xs)[0] == xs[k]
  {
    var rest := xs[1..];
    var sorted := SortByMagnitude(xs);
    assert sorted == Insert(xs[0], SortByMagnitude(rest));
    if rest == [] {
      assert sorted[0] == xs[0];
      assert IsFirstSmallest(xs, 0);
    } else {
      SortHeadIsFirstSmallest(rest);
      var k :| IsFirstSmallest(rest, k) && SortByMagnitude(rest)[0] == rest[k];
      ConsFirstSmallest(xs, k);
      var w := if Abs(xs[0]) <= Abs(rest[k]) then 0 else k + 1;
      assert sorted[0] == xs[w];
      assert IsFirstSmallest(xs, w);
    }
  }

  /** The selection policy in closed form: the present sample of smallest
      magnitude, the head sample winning a tie; `None` when both are missing. */
  function Select(offHead: Option<int>, offWta: Option<int>): (r: Option<int>)
    ensures r.None? <==> offHead.None? && offWta.None?
    ensures r.Some? ==> r == offHead || r == offWta
    ensures r.Some? && offHead.Some? ==> Abs(r.value) <= Abs(offHead.value)
    ensures r.Some? && offWta.Some? ==> Abs(r.value) <= Abs(offWta.value)
    ensures offHead.Some? && Abs(offHead.value) == Abs(r.value) ==> r == offHead
  {
    match (offHead, offWta)
    case (None, None) => None
    case (Some(a), None) => Some(a)
    case (None, Some(b)) => Some(b)
    case (Some(a), Some(b)) => if Abs(b) < Abs(a) then Some(b) else Some(a)
  }

  /** Filtering, sorting and taking the head choose what `Select` chooses. */
  lemma SortedCandidatesAgreeWithSelect(offHead: Option<int>, offWta: Option<int>)
    ensures var cands := SortByMagnitude(Finite([offHead, offWta]));
      if cands == [] then Select(offHead, offWta) == None
      else Select(offHead, offWta) == Some(cands[0])
  {
  }

  /** The offset `calibrateOnce` leaves behind, starting from `current`. */
  function Committed(current: int, offHead: Option<int>, offWta: Option<int>): (r: int)
    ensures offHead.None? && offWta.None? ==> r == current
    ensures offHead.Some? || offWta.Some? ==> Some(r) == Select(offHead, offWta)
  {
    match Select(offHead, offWta)
    case None => current
    case Some(x) => x
  }

  /** Minimum change of offset, in ms, for which periodic recalibration
      restarts the ticker. */
  const RestartThresholdMs: int := 5

  /** `Math.abs(offsetMs - before) >= 5`: the new offset has left the open
      window of 5 ms around the old one. */
  predicate ShouldRestart(before: int, after: int): (r: bool)
    ensures r <==> after <= before - RestartThresholdMs || after >= before + RestartThresholdMs
  {
    Abs(after - before) >= RestartThresholdMs
  }

  /** A periodic recalibration restarts the ticker exactly when some sample
      was present and the chosen one is at least 5 ms away from the old
      offset; a pass where every source failed never restarts it. */
  lemma RestartOnlyOnDrift(before: int, offHead: Option<int>, offWta: Option<int>)
    ensures ShouldRestart(before, Committed(before, offHead, offWta)) <==>
      Select(offHead, offWta).Some? && Abs(Select(offHead, offWta).value - before) >= 5
  {
  }

  /** Source A at +1500 ms and source B at -200 ms: -200 ms is chosen. */
  lemma ExampleSmallerMagnitudeWins()
    ensures Committed(0, Some(1500), Some(-200)) == -200
  {
  }

  /** The calibration state: the single current offset (`offsetMs`). */
  class Calibrator {
    var offsetMs: int

    constructor ()
      ensures offsetMs == 0
    {
      offsetMs := 0;
    }

    /** `calibrateOnce()` given the outcomes of the two samples. */
    method CalibrateOnce(offHead: Option<int>, offWta: Option<int>) returns (r: int)
      modifies this
      ensures offsetMs == Committed(old(offsetMs), offHead, offWta)
      ensures r == offsetMs
    {
      var cands := SortByMagnitude(Finite([offHead, offWta]));
      SortedCandidatesAgreeWithSelect(offHead, offWta);
      if |cands| == 0 {
        return offsetMs;
      }
      offsetMs := cands[0];
      return offsetMs;
    }

    /** One pass of the 5-minute recalibration: calibrate, then report whether
        the ticker must be restarted. */
    method Recalibrate(offHead: Option<int>, offWta: Option<int>) returns (restart: bool)
      modifies this
      ensures offsetMs == Committed(old(offsetMs), offHead, offWta)
      ensures restart == ShouldRestart(old(offsetMs), offsetMs)
    {
      var before := offsetMs;
      var _ := CalibrateOnce(offHead, offWta);
      restart := Abs(offsetMs - before) >= RestartThresholdMs;
    }
  }
}
