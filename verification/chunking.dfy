/** Chunk-size resolution and the fixed-size partition of the analysis
    window into chunks, in integer milliseconds. */
module Chunking {
  import opened Wrappers

  /** The two exceptions the detector's arithmetic can raise: `1000/fps`
      with `fps == 0`, and `range` with a step of zero. */
  datatype Error = ZeroDivision | ZeroStep

  function Min(a: int, b: int): int { if a <= b then a else b }

  function Abs(x: int): nat { if x < 0 then -x else x }

  /** Python's `int(n / d)`: true division followed by truncation toward
      zero (not flooring, not rounding). The result is the unique `q` whose
      multiple `q * d` lies between 0 and `n` and falls short of `n` by less
      than one step of `d`. */
  function TruncDiv(n: nat, d: int): (q: int)
    requires d != 0
    ensures 0 <= q * d <= n
    ensures n - q * d < Abs(d)
    ensures d > 0 ==> q >= 0
    ensures d < 0 ==> q <= 0
  {
    if d > 0 then n / d
    else
      var p := n / -d;
      assert -p * d == p * -d;
      -p
  }

  /** The chunk length in milliseconds: the supplied value unchanged, or
      `int(1000 / fps)` when none is supplied. */
  function ResolveChunkSize(chunkSize: Option<int>, fps: int): (r: Result<int, Error>)
    ensures chunkSize.Some? ==> r == Ok(chunkSize.value)
    ensures chunkSize.None? && fps == 0 ==> r == Err(ZeroDivision)
    ensures chunkSize.None? && fps != 0 ==>
              r.Ok? && 0 <= r.value * fps <= 1000 && 1000 - r.value * fps < Abs(fps)
  {
    match chunkSize
    case Some(c) => Ok(c)
    case None => if fps == 0 then Err(ZeroDivision) else Ok(TruncDiv(1000, fps))
  }

  lemma Distrib(a: int, b: int, c: int)
    ensures a * c + b * c == (a + b) * c
  {
  }

  lemma MulAtLeast(a: int, c: int)
    requires a >= 1 && c >= 0
    ensures a * c >= c
  {
  }

  lemma MulLe(a: int, b: int, c: int)
    requires a <= b && c >= 0
    ensures a * c <= b * c
  {
    Distrib(a, b - a, c);
  }

  /** `k * cs` is a multiple of `cs` whose quotient is `k`. */
  lemma MultipleOf(k: nat, cs: nat)
    requires cs > 0
    ensures (k * cs) % cs == 0 && (k * cs) / cs == k
  {
    var q := (k * cs) / cs;
    var m := (k * cs) % cs;
    assert k * cs == q * cs + m;
    if q < k {
      MulLe(q + 1, k, cs);
      Distrib(q, 1, cs);
      assert false;
    } else if q > k {
      MulLe(k + 1, q, cs);
      Distrib(k, 1, cs);
      assert false;
    }
  }

  /** Multiplying by a positive chunk size preserves strict order. */
  lemma MultipleOrder(a: nat, b: nat, cs: nat)
    requires cs > 0
    ensures a < b <==> a * cs < b * cs
  {
    if a < b {
      MulLe(a + 1, b, cs);
      Distrib(a, 1, cs);
    } else {
      MulLe(b, a, cs);
    }
  }

  /** A multiple of `cs` is its quotient times `cs`. */
  lemma MultipleForm(x: nat, cs: nat)
    requires cs > 0 && x % cs == 0
    ensures x == (x / cs) * cs
  {
  }

  /** Offsets in strictly increasing chunks are strictly increasing. */
  lemma DivMonotoneStrict(x: nat, y: nat, cs: nat)
    requires cs > 0 && x % cs == 0 && x / cs < y / cs
    ensures x < y
  {
    var qx := x / cs;
    var qy := y / cs;
    assert x == qx * cs;
    assert y == qy * cs + y % cs;
    MulLe(qx + 1, qy, cs);
    Distrib(qx, 1, cs);
  }

  /** Number of chunks of length `cs` needed to cover `len` milliseconds:
      the ceiling of `len / cs`. */
  function NumChunks(len: nat, cs: nat): nat
    requires cs > 0
  {
    (len + cs - 1) / cs
  }

  /** Chunk `k` exists exactly when its start offset lies inside the window. */
  lemma ChunkIndexBound(len: nat, cs: nat, k: nat)
    requires cs > 0
    ensures k < NumChunks(len, cs) <==> k * cs < len
  {
    var n := NumChunks(len, cs);
    assert n * cs <= len + cs - 1 < (n + 1) * cs;
    if k < n {
      assert k * cs + cs == (k + 1) * cs <= n * cs;
    } else {
      assert k * cs >= n * cs;
    }
  }

  /** The elements `start, start + step, ...` below `stop`, as Python's
      `range` yields them for a positive step. */
  function RangeFrom(start: nat, stop: nat, step: nat): seq<nat>
    requires step > 0
    decreases stop - start
  {
    if start >= stop then [] else [start] + RangeFrom(start + step, stop, step)
  }

  lemma {:induction false} RangeFromShape(j: nat, stop: nat, step: nat)
    requires step > 0
    ensures var s := RangeFrom(j * step, stop, step);
            && |s| == (if j < NumChunks(stop, step) then NumChunks(stop, step) - j else 0)
            && forall k :: 0 <= k < |s| ==> s[k] == (j + k) * step
    decreases stop - j * step
  {
    ChunkIndexBound(stop, step, j);
    if j * step < stop {
      assert (j + 1) * step == j * step + step;
      RangeFromShape(j + 1, stop, step);
      var s := RangeFrom(j * step, stop, step);
      var t := RangeFrom((j + 1) * step, stop, step);
      assert s == [j * step] + t;
      forall k | 0 <= k < |s|
        ensures s[k] == (j + k) * step
      {
        if k > 0 {
          assert s[k] == t[k - 1] == (j + 1 + (k - 1)) * step;
        }
      }
    }
  }

  /** `range(0, stop, step)`: an error for a zero step, nothing for a
      negative step, and otherwise exactly the chunk start offsets. */
  function Range(stop: nat, step: int): (r: Result<seq<nat>, Error>)
    ensures r.Err? <==> step == 0
    ensures r.Err? ==> r.error == ZeroStep
    ensures step < 0 ==> r == Ok([])
    ensures step > 0 ==>
              && |r.value| == NumChunks(stop, step)
              && forall k :: 0 <= k < |r.value| ==> r.value[k] == k * step
  {
    if step == 0 then Err(ZeroStep)
    else if step < 0 then Ok([])
    else
      RangeFromShape(0, stop, step);
      Ok(RangeFrom(0, stop, step))
  }

  /** The `k`-th value of `range(0, stop, step)` is the start of chunk `k`,
      inside `[0, stop)`. */
  lemma RangeOffset(stop: nat, step: nat, k: nat)
    requires step > 0 && k < NumChunks(stop, step)
    ensures k < |Range(stop, step).value|
    ensures Range(stop, step).value[k] == k * step < stop
  {
    ChunkIndexBound(stop, step, k);
  }

  /** A value is produced by `range(0, stop, step)` exactly when it is a
      multiple of the step inside `[0, stop)`. */
  lemma RangeMembership(stop: nat, step: int, x: int)
    requires step > 0
    ensures x in Range(stop, step).value <==> 0 <= x < stop && x % step == 0
  {
    var s := Range(stop, step).value;
    if x in s {
      var k :| 0 <= k < |s| && s[k] == x;
      MultipleOf(k, step);
      ChunkIndexBound(stop, step, k);
    }
    if 0 <= x < stop && x % step == 0 {
      var k := x / step;
      MultipleForm(x, step);
      ChunkIndexBound(stop, step, k);
      assert s[k] == x;
    }
  }

  /** The chunk that begins at offset `x`: `win[x : x + cs]`, clipped at
      the end of the window as slicing clips it. */
  function ChunkAt(win: seq<int>, cs: nat, x: nat): seq<int>
    requires x < |win|
  {
    win[x .. Min(x + cs, |win|)]
  }

  /** Chunk number `k` of the window, the one at offset `k * cs`. All
      chunks are non-empty and `cs` long, except that the last one may be
      shorter and ends exactly at the end of the window. */
  function Chunk(win: seq<int>, cs: nat, k: nat): (c: seq<int>)
    requires cs > 0 && k < NumChunks(|win|, cs)
    ensures 0 < |c| <= cs
    ensures k + 1 < NumChunks(|win|, cs) ==> |c| == cs
    ensures k + 1 == NumChunks(|win|, cs) ==> k * cs + |c| == |win|
  {
    ChunkIndexBound(|win|, cs, k);
    ChunkIndexBound(|win|, cs, k + 1);
    assert (k + 1) * cs == k * cs + cs;
    ChunkAt(win, cs, k * cs)
  }

  /** Every chunk of the window, in order. */
  function Chunks(win: seq<int>, cs: nat): seq<seq<int>>
    requires cs > 0
  {
    seq(NumChunks(|win|, cs), k requires 0 <= k < NumChunks(|win|, cs) => Chunk(win, cs, k))
  }

  /** Concatenation of a sequence of chunks. */
  function Flatten(cs: seq<seq<int>>): seq<int>
  {
    if |cs| == 0 then [] else Flatten(cs[..|cs| - 1]) + cs[|cs| - 1]
  }

  lemma FlattenSnoc(ss: seq<seq<int>>, m: nat)
    requires 0 < m <= |ss|
    ensures Flatten(ss[..m]) == Flatten(ss[..m - 1]) + ss[m - 1]
  {
    assert ss[..m][..m - 1] == ss[..m - 1];
  }

  lemma PrefixSplit(win: seq<int>, lo: nat, hi: nat)
    requires lo <= hi <= |win|
    ensures win[..hi] == win[..lo] + win[lo .. hi]
  {
  }

  /** Chunk `k` as a slice, with both ends named. */
  lemma ChunkBounds(win: seq<int>, cs: nat, k: nat)
    requires cs > 0 && k < NumChunks(|win|, cs)
    ensures k * cs < |win| && (k + 1) * cs == k * cs + cs
    ensures Chunk(win, cs, k) == win[k * cs .. Min((k + 1) * cs, |win|)]
  {
    ChunkIndexBound(|win|, cs, k);
    Distrib(k, 1, cs);
  }

  lemma {:induction false} ChunksPrefix(win: seq<int>, cs: nat, m: nat)
    requires cs > 0 && m <= NumChunks(|win|, cs)
    ensures Flatten(Chunks(win, cs)[..m]) == win[..Min(m * cs, |win|)]
  {
    if m > 0 {
      var all := Chunks(win, cs);
      ChunksPrefix(win, cs, m - 1);
      ChunkBounds(win, cs, m - 1);
      FlattenSnoc(all, m);
      PrefixSplit(win, (m - 1) * cs, Min(m * cs, |win|));
    }
  }

  /** The chunks partition the window: laid end to end they give back
      exactly the window, with no gap and no overlap. */
  lemma ChunksPartitionWindow(win: seq<int>, cs: nat)
    requires cs > 0
    ensures Flatten(Chunks(win, cs)) == win
  {
    var n := NumChunks(|win|, cs);
    ChunksPrefix(win, cs, n);
    ChunkIndexBound(|win|, cs, n);
    assert Chunks(win, cs)[..n] == Chunks(win, cs);
  }

  /** When the chunk size is at least the window length there is a single
      chunk, and it is the whole window. */
  lemma SingleChunk(win: seq<int>, cs: nat)
    requires 0 < |win| <= cs
    ensures NumChunks(|win|, cs) == 1
    ensures Chunk(win, cs, 0) == win
  {
    ChunkIndexBound(|win|, cs, 0);
    ChunkIndexBound(|win|, cs, 1);
  }
}
