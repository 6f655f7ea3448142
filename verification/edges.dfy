/** The rising-edge state machine over per-chunk loudness: a chunk's start
    offset is reported only when the signal goes from quiet to loud. */
module Edges {
  import opened Chunking

  /** A chunk counts as active only when its level is STRICTLY above the
      threshold; a level equal to the threshold is quiet. */
  predicate Loud(level: int, threshold: int) { level > threshold }

  /** Stateless reference: chunk `k` starts an activity region when it is
      loud and it is either the first chunk or its predecessor is quiet. */
  predicate IsOnset(levels: seq<int>, threshold: int, k: int)
    requires 0 <= k < |levels|
  {
    Loud(levels[k], threshold) && (k == 0 || !Loud(levels[k - 1], threshold))
  }

  predicate StrictlyIncreasing(s: seq<nat>)
  {
    forall i, j :: 0 <= i < j < |s| ==> s[i] < s[j]
  }

  /** The scan from chunk `k` onward with state `active`: the offsets
      `j * cs` it emits, left to right. A loud chunk met while inactive is
      emitted and makes the scan active; a quiet chunk makes it inactive. */
  function Scan(levels: seq<int>, threshold: int, cs: nat, active: bool, k: nat): seq<nat>
    requires k <= |levels|
    decreases |levels| - k
  {
    if k == |levels| then []
    else
      (if Loud(levels[k], threshold) && !active then [k * cs] else [])
      + Scan(levels, threshold, cs, Loud(levels[k], threshold), k + 1)
  }

  /** Emitted offsets are multiples of `cs`, name chunks at or after `k`,
      and come in strictly increasing order. */
  lemma {:induction false} ScanShape(levels: seq<int>, threshold: int, cs: nat, active: bool, k: nat)
    requires cs > 0 && k <= |levels|
    ensures var r := Scan(levels, threshold, cs, active, k);
            && (forall i :: 0 <= i < |r| ==> r[i] % cs == 0 && k <= r[i] / cs < |levels|)
            && StrictlyIncreasing(r)
    decreases |levels| - k
  {
    if k < |levels| {
      var loud := Loud(levels[k], threshold);
      var rest := Scan(levels, threshold, cs, loud, k + 1);
      ScanShape(levels, threshold, cs, loud, k + 1);
      if loud && !active {
        MultipleOf(k, cs);
        forall i | 0 <= i < |rest|
          ensures k * cs < rest[i]
        {
          DivMonotoneStrict(k * cs, rest[i], cs);
        }
        assert Scan(levels, threshold, cs, active, k) == [k * cs] + rest;
      } else {
        assert Scan(levels, threshold, cs, active, k) == rest;
      }
    }
  }

  /** What `detect_audio_activity` returns for a window whose chunks have
      these levels: the scan from the first chunk, initially inactive. */
  function Onsets(levels: seq<int>, threshold: int, cs: nat): (r: seq<nat>)
    requires cs > 0
    ensures StrictlyIncreasing(r)
  {
    ScanShape(levels, threshold, cs, false, 0);
    Scan(levels, threshold, cs, false, 0)
  }

  /** Reference definition without state: the offsets of the onset chunks
      at or after `k`, in order. */
  function OnsetFilter(levels: seq<int>, threshold: int, cs: nat, k: nat): seq<nat>
    requires k <= |levels|
    decreases |levels| - k
  {
    if k == |levels| then []
    else (if IsOnset(levels, threshold, k) then [k * cs] else [])
         + OnsetFilter(levels, threshold, cs, k + 1)
  }

  /** The state machine and the stateless filter agree, as long as the
      flag `active` records whether the previous chunk was loud. */
  lemma {:induction false} ScanIsFilter(levels: seq<int>, threshold: int, cs: nat, active: bool, k: nat)
    requires cs > 0 && k <= |levels|
    requires active == (k > 0 && Loud(levels[k - 1], threshold))
    ensures Scan(levels, threshold, cs, active, k) == OnsetFilter(levels, threshold, cs, k)
    decreases |levels| - k
  {
    if k < |levels| {
      ScanIsFilter(levels, threshold, cs, Loud(levels[k], threshold), k + 1);
    }
  }

  lemma {:induction false} FilterMembership(levels: seq<int>, threshold: int, cs: nat, k: nat, j: nat)
    requires cs > 0 && k <= j < |levels|
    ensures j * cs in OnsetFilter(levels, threshold, cs, k) <==> IsOnset(levels, threshold, j)
    decreases |levels| - k
  {
    var rest := OnsetFilter(levels, threshold, cs, k + 1);
    assert OnsetFilter(levels, threshold, cs, k)
        == (if IsOnset(levels, threshold, k) then [k * cs] else []) + rest;
    if j == k {
      ScanIsFilter(levels, threshold, cs, Loud(levels[k], threshold), k + 1);
      ScanShape(levels, threshold, cs, Loud(levels[k], threshold), k + 1);
      MultipleOf(k, cs);
      assert k * cs !in rest;
    } else {
      FilterMembership(levels, threshold, cs, k + 1, j);
      MultipleOrder(k, j, cs);
    }
  }

  /** Exact characterisation of the output: offset `k * cs` is emitted iff
      chunk `k` is an onset, and nothing else is ever emitted. */
  lemma OnsetsCharacterised(levels: seq<int>, threshold: int, cs: nat)
    requires cs > 0
    ensures forall k :: 0 <= k < |levels| ==>
              (k * cs in Onsets(levels, threshold, cs) <==> IsOnset(levels, threshold, k))
    ensures forall x :: x in Onsets(levels, threshold, cs) ==>
              x % cs == 0 && x / cs < |levels| && IsOnset(levels, threshold, x / cs)
  {
    var r := Onsets(levels, threshold, cs);
    ScanIsFilter(levels, threshold, cs, false, 0);
    ScanShape(levels, threshold, cs, false, 0);
    forall k | 0 <= k < |levels|
      ensures k * cs in r <==> IsOnset(levels, threshold, k)
    {
      FilterMembership(levels, threshold, cs, 0, k);
    }
    forall x | x in r
      ensures x % cs == 0 && x / cs < |levels| && IsOnset(levels, threshold, x / cs)
    {
      var k := x / cs;
      assert x == k * cs;
      MultipleOf(k, cs);
      FilterMembership(levels, threshold, cs, 0, k);
    }
  }

  /** Every loud chunk belongs to a run that begins at an onset at or
      before it, and every chunk from that onset up to it is loud. */
  lemma {:induction false} RunStart(levels: seq<int>, threshold: int, j: nat) returns (i: nat)
    requires j < |levels| && Loud(levels[j], threshold)
    ensures i <= j && IsOnset(levels, threshold, i)
    ensures forall m :: i <= m <= j ==> Loud(levels[m], threshold)
  {
    if j == 0 || !Loud(levels[j - 1], threshold) {
      i := j;
    } else {
      i := RunStart(levels, threshold, j - 1);
    }
  }

  lemma {:induction false} QuietScanIsEmpty(levels: seq<int>, threshold: int, cs: nat, active: bool, k: nat)
    requires cs > 0 && k <= |levels|
    requires forall j :: k <= j < |levels| ==> !Loud(levels[j], threshold)
    ensures Scan(levels, threshold, cs, active, k) == []
    decreases |levels| - k
  {
    if k < |levels| {
      QuietScanIsEmpty(levels, threshold, cs, false, k + 1);
    }
  }

  /** The output is empty exactly when no chunk exceeds the threshold. */
  lemma OnsetsEmptyIff(levels: seq<int>, threshold: int, cs: nat)
    requires cs > 0
    ensures Onsets(levels, threshold, cs) == [] <==>
              forall j :: 0 <= j < |levels| ==> !Loud(levels[j], threshold)
  {
    if forall j :: 0 <= j < |levels| ==> !Loud(levels[j], threshold) {
      QuietScanIsEmpty(levels, threshold, cs, false, 0);
    } else {
      var j :| 0 <= j < |levels| && Loud(levels[j], threshold);
      var i := RunStart(levels, threshold, j);
      OnsetsCharacterised(levels, threshold, cs);
      assert i * cs in Onsets(levels, threshold, cs);
    }
  }

  /** A single quiet chunk inside loud audio is a full reset: the loud chunk
      after it is reported as a fresh onset, in addition to an onset
      reported earlier for the loud chunk before it. */
  lemma DipSplitsRun(levels: seq<int>, threshold: int, cs: nat, j: nat)
    requires cs > 0 && 0 < j && j + 1 < |levels|
    requires Loud(levels[j - 1], threshold)
    requires !Loud(levels[j], threshold)
    requires Loud(levels[j + 1], threshold)
    ensures (j + 1) * cs in Onsets(levels, threshold, cs)
    ensures exists x :: x in Onsets(levels, threshold, cs) && x < j * cs
  {
    OnsetsCharacterised(levels, threshold, cs);
    var i := RunStart(levels, threshold, j - 1);
    assert i * cs in Onsets(levels, threshold, cs);
    MultipleOrder(i, j, cs);
  }

  lemma {:induction false} FilterSkip(levels: seq<int>, threshold: int, cs: nat, k: nat, m: nat)
    requires k <= m <= |levels|
    requires forall j :: k <= j < m ==> !IsOnset(levels, threshold, j)
    ensures OnsetFilter(levels, threshold, cs, k) == OnsetFilter(levels, threshold, cs, m)
    decreases m - k
  {
    if k < m {
      FilterSkip(levels, threshold, cs, k + 1, m);
    }
  }

  /** One contiguous loud region (chunks `a..b`, everything else quiet) is
      reported as exactly one offset: the start of chunk `a`. */
  lemma SingleRegion(levels: seq<int>, threshold: int, cs: nat, a: nat, b: nat)
    requires cs > 0 && a <= b < |levels|
    requires forall j :: 0 <= j < |levels| ==> (Loud(levels[j], threshold) <==> a <= j <= b)
    ensures Onsets(levels, threshold, cs) == [a * cs]
  {
    ScanIsFilter(levels, threshold, cs, false, 0);
    FilterSkip(levels, threshold, cs, 0, a);
    FilterSkip(levels, threshold, cs, a + 1, |levels|);
    assert IsOnset(levels, threshold, a);
  }

  /** Two loud regions (chunks `a..b` and `c..d`) separated by at least one
      quiet chunk, everything else quiet, are reported as exactly two
      offsets: the first chunk of each region. */
  lemma TwoRegions(levels: seq<int>, threshold: int, cs: nat, a: nat, b: nat, c: nat, d: nat)
    requires cs > 0 && a <= b && b + 1 < c && c <= d < |levels|
    requires forall j :: 0 <= j < |levels| ==>
               (Loud(levels[j], threshold) <==> (a <= j <= b || c <= j <= d))
    ensures Onsets(levels, threshold, cs) == [a * cs, c * cs]
  {
    ScanIsFilter(levels, threshold, cs, false, 0);
    FilterSkip(levels, threshold, cs, 0, a);
    assert IsOnset(levels, threshold, a);
    FilterSkip(levels, threshold, cs, a + 1, c);
    assert IsOnset(levels, threshold, c);
    FilterSkip(levels, threshold, cs, c + 1, |levels|);
  }

  lemma {:induction false} ScanCount(levels: seq<int>, threshold: int, cs: nat, active: bool, k: nat)
    requires cs > 0 && k <= |levels|
    ensures |Scan(levels, threshold, cs, active, k)| <= (|levels| - k + (if active then 0 else 1)) / 2
    decreases |levels| - k
  {
    if k < |levels| {
      ScanCount(levels, threshold, cs, Loud(levels[k], threshold), k + 1);
    }
  }

  /** Two neighbouring chunks are never both onsets, so at most half of the
      chunks (rounded up) are reported. */
  lemma OnsetCountBound(levels: seq<int>, threshold: int, cs: nat)
    requires cs > 0
    ensures |Onsets(levels, threshold, cs)| <= (|levels| + 1) / 2
  {
    ScanCount(levels, threshold, cs, false, 0);
  }
}
