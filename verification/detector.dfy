/** `detect_audio_activity`: resolve the analysis window and the chunk size,
    measure each chunk, and report the start offset of every quiet-to-loud
    transition. Audio is a sequence with one entry per millisecond; what an
    entry holds is opaque here, and the loudness of a chunk (its dBFS level)
    is supplied by the caller as the function `loudness`. */
module Detector {
  import opened Wrappers
  import opened Chunking
  import opened Edges

  /** The parameters of one detection run. Times are in milliseconds;
      `None` stands for an argument left at Python's `None`. */
  datatype Config = Config(
    inTime: Option<nat>,
    outTime: Option<nat>,
    fps: int,
    threshold: int,
    chunkSize: Option<int>)

  /** The keyword defaults of `detect_audio_activity`: 25 frames per
      second, a threshold of -50 dBFS, and a chunk size derived from the
      frame rate. */
  const DefaultFps: int := 25
  const DefaultThreshold: int := -50

  function DefaultConfig(inTime: Option<nat>, outTime: Option<nat>): Config
  {
    Config(inTime, outTime, DefaultFps, DefaultThreshold, None)
  }

  /** With the default frame rate the chunk size is `int(1000 / 25) == 40`
      milliseconds. */
  lemma DefaultChunkSize(inTime: Option<nat>, outTime: Option<nat>)
    ensures var cfg := DefaultConfig(inTime, outTime);
            ResolveChunkSize(cfg.chunkSize, cfg.fps) == Ok(40)
  {
  }

  /** Where the window begins in the audio: the in-time, 0 by default,
      clamped to the audio length as slicing clamps it. */
  function WindowStart(total: nat, inTime: Option<nat>): (s: nat)
    ensures s <= total
    ensures inTime.None? ==> s == 0
    ensures inTime.Some? && inTime.value <= total ==> s == inTime.value
    ensures inTime.Some? && inTime.value > total ==> s == total
  {
    Min(inTime.GetOr(0), total)
  }

  /** Where the window ends in the audio: the out-time, the full length by
      default, clamped to the audio length and never before the start. */
  function WindowEnd(total: nat, inTime: Option<nat>, outTime: Option<nat>): (e: nat)
    ensures WindowStart(total, inTime) <= e <= total
    ensures outTime.None? ==> e == total
    ensures outTime.Some? && WindowStart(total, inTime) <= outTime.value <= total ==> e == outTime.value
    ensures outTime.Some? && outTime.value >= total ==> e == total
    ensures outTime.Some? && outTime.value < WindowStart(total, inTime) ==> e == WindowStart(total, inTime)
  {
    var s := WindowStart(total, inTime);
    var o := Min(outTime.GetOr(total), total);
    if o < s then s else o
  }

  /** The sliced audio that is scanned. Position `t` of the window is
      position `WindowStart + t` of the audio. */
  function Window(audio: seq<int>, inTime: Option<nat>, outTime: Option<nat>): (w: seq<int>)
    ensures |w| == WindowEnd(|audio|, inTime, outTime) - WindowStart(|audio|, inTime)
    ensures forall t :: 0 <= t < |w| ==> w[t] == audio[WindowStart(|audio|, inTime) + t]
  {
    audio[WindowStart(|audio|, inTime) .. WindowEnd(|audio|, inTime, outTime)]
  }

  /** With neither time given, the window is the entire track. */
  lemma WindowDefaults(audio: seq<int>)
    ensures Window(audio, None, None) == audio
  {
  }

  /** With times inside the track, the window is exactly `[in, out)`; an
      out-time at or before the in-time gives an empty window. */
  lemma WindowBetween(audio: seq<int>, inMs: nat, outMs: nat)
    requires inMs <= |audio| && outMs <= |audio|
    ensures inMs <= outMs ==> Window(audio, Some(inMs), Some(outMs)) == audio[inMs .. outMs]
    ensures outMs <= inMs ==> Window(audio, Some(inMs), Some(outMs)) == []
  {
  }

  /** Times beyond the track are clamped: an out-time past the end reads to
      the end of the track, and an in-time at or past the end leaves
      nothing to scan. */
  lemma WindowClamped(audio: seq<int>, inTime: Option<nat>, outTime: Option<nat>)
    ensures inTime.Some? && inTime.value <= |audio| && outTime.Some? && outTime.value >= |audio| ==>
              Window(audio, inTime, outTime) == audio[inTime.value ..]
    ensures inTime.Some? && inTime.value >= |audio| ==> Window(audio, inTime, outTime) == []
  {
  }

  lemma SliceOfSlice(audio: seq<int>, s: nat, e: nat, a: nat, b: nat)
    requires s <= e <= |audio| && a <= b <= e - s
    ensures audio[s .. e][a .. b] == audio[s + a .. s + b]
  {
    var w := audio[s .. e];
    assert forall t :: 0 <= t < b - a ==> w[a .. b][t] == w[a + t] == audio[s + a + t];
  }

  /** The loudness of every chunk of the window, in order: one level for
      each of the `ceil(len / cs)` chunks. */
  function Levels(win: seq<int>, cs: nat, loudness: seq<int> -> int): (levels: seq<int>)
    requires cs > 0
    ensures |levels| == NumChunks(|win|, cs)
  {
    seq(NumChunks(|win|, cs), k requires 0 <= k < NumChunks(|win|, cs) => loudness(Chunk(win, cs, k)))
  }

  lemma LevelAt(win: seq<int>, cs: nat, loudness: seq<int> -> int, k: nat)
    requires cs > 0 && k < NumChunks(|win|, cs)
    ensures k * cs < |win|
    ensures Levels(win, cs, loudness)[k] == loudness(ChunkAt(win, cs, k * cs))
    ensures Levels(win, cs, loudness)[k] == loudness(Chunk(win, cs, k))
  {
    ChunkIndexBound(|win|, cs, k);
    assert Chunk(win, cs, k) == ChunkAt(win, cs, k * cs);
  }

  /** The levels follow the loop's offsets: there is one level for each
      value `i` of `range(0, len, cs)`, and it is the loudness of the slice
      `win[i : i + cs]`. */
  lemma LevelsFollowRange(win: seq<int>, cs: nat, loudness: seq<int> -> int)
    requires cs > 0
    ensures var offsets := Range(|win|, cs).value;
            && |Levels(win, cs, loudness)| == |offsets|
            && forall k :: 0 <= k < |offsets| ==>
                 offsets[k] < |win|
                 && Levels(win, cs, loudness)[k] == loudness(ChunkAt(win, cs, offsets[k]))
  {
    var offsets := Range(|win|, cs).value;
    forall k | 0 <= k < |offsets|
      ensures offsets[k] < |win|
      ensures Levels(win, cs, loudness)[k] == loudness(ChunkAt(win, cs, offsets[k]))
    {
      RangeOffset(|win|, cs, k);
      LevelAt(win, cs, loudness, k);
    }
  }

  /** The scan of `detect_audio_activity` over an already sliced window with an
      already resolved chunk size: `range` fails on a zero step and is empty
      for a negative one. Reported offsets are strictly increasing and lie
      inside the window. */
  function ScanWindow(win: seq<int>, cs: int, threshold: int, loudness: seq<int> -> int)
    : (r: Result<seq<nat>, Error>)
    ensures r.Err? <==> cs == 0
    ensures cs < 0 ==> r == Ok([])
    ensures r.Ok? ==>
              && StrictlyIncreasing(r.value)
              && forall i :: 0 <= i < |r.value| ==> r.value[i] < |win|
  {
    match Range(|win|, cs)
    case Err(e) => Err(e)
    case Ok(_) =>
      if cs > 0 then
        var levels := Levels(win, cs, loudness);
        var r := Onsets(levels, threshold, cs);
        ScanShape(levels, threshold, cs, false, 0);
        assert forall i :: 0 <= i < |r| ==> r[i] < |win| by {
          forall i | 0 <= i < |r|
            ensures r[i] < |win|
          {
            var k := r[i] / cs;
            assert r[i] == k * cs;
            ChunkIndexBound(|win|, cs, k);
          }
        }
        Ok(r)
      else
        Ok([])
  }

  /** Specification of `detect_audio_activity`. Failures are the two
      exceptions its arithmetic raises: `1000/fps` with `fps == 0`, and a
      chunk size of zero, whether supplied or truncated from `1000/fps`. */
  function Detect(audio: seq<int>, cfg: Config, loudness: seq<int> -> int): (r: Result<seq<nat>, Error>)
    ensures r == Err(ZeroDivision) <==> cfg.chunkSize.None? && cfg.fps == 0
    ensures r == Err(ZeroStep) <==>
              cfg.chunkSize == Some(0) || (cfg.chunkSize.None? && Abs(cfg.fps) > 1000)
  {
    match ResolveChunkSize(cfg.chunkSize, cfg.fps)
    case Err(e) => Err(e)
    case Ok(cs) =>
      var r := ScanWindow(Window(audio, cfg.inTime, cfg.outTime), cs, cfg.threshold, loudness);
      if cfg.chunkSize.Some? then r
      else
        TruncationToZero(cfg.fps);
        r
  }

  /** With a positive resolved chunk size, the result is the rising-edge
      scan over the loudness of the window's chunks. */
  lemma DetectUnfold(audio: seq<int>, cfg: Config, loudness: seq<int> -> int, cs: nat)
    requires ResolveChunkSize(cfg.chunkSize, cfg.fps) == Ok(cs) && cs > 0
    ensures Detect(audio, cfg, loudness)
            == Ok(Onsets(Levels(Window(audio, cfg.inTime, cfg.outTime), cs, loudness), cfg.threshold, cs))
  {
  }

  /** `int(1000 / fps)` is zero exactly when `fps` exceeds 1000 in size. */
  lemma TruncationToZero(fps: int)
    requires fps != 0
    ensures TruncDiv(1000, fps) == 0 <==> Abs(fps) > 1000
  {
    var q := TruncDiv(1000, fps);
    if q != 0 && Abs(fps) > 1000 {
      if fps > 0 {
        MulAtLeast(q, fps);
      } else {
        MulAtLeast(-q, -fps);
      }
      assert false;
    }
  }

  /** A negative chunk size, whether supplied or derived from a negative
      frame rate of at most 1000 in size, makes `range` empty, so nothing is
      reported and no error is raised. */
  lemma NegativeStepReportsNothing(audio: seq<int>, cfg: Config, loudness: seq<int> -> int)
    requires || (cfg.chunkSize.Some? && cfg.chunkSize.value < 0)
             || (cfg.chunkSize.None? && -1000 <= cfg.fps < 0)
    ensures Detect(audio, cfg, loudness) == Ok([])
  {
    if cfg.chunkSize.None? {
      TruncationToZero(cfg.fps);
    }
  }

  /** Offset `x` of the window starts a loud region: it is the start of a
      chunk, that chunk is louder than the threshold, and the chunk before
      it (if any) is not. */
  predicate StartsLoudRegion(win: seq<int>, cs: nat, threshold: int, loudness: seq<int> -> int, x: nat)
    requires cs > 0
  {
    && x < |win| && x % cs == 0
    && Loud(loudness(ChunkAt(win, cs, x)), threshold)
    && (x < cs || !Loud(loudness(ChunkAt(win, cs, x - cs)), threshold))
  }

  /** Offset `x` is reported for a window exactly when it starts a chunk,
      that chunk is louder than the threshold, and the chunk before it (if
      any) is not. */
  lemma {:induction false} WindowOnset(win: seq<int>, cs: nat, threshold: int, loudness: seq<int> -> int, x: nat)
    requires cs > 0
    ensures x in Onsets(Levels(win, cs, loudness), threshold, cs) <==>
              StartsLoudRegion(win, cs, threshold, loudness, x)
  {
    var levels := Levels(win, cs, loudness);
    var r := Onsets(levels, threshold, cs);
    var k := x / cs;
    OnsetsCharacterised(levels, threshold, cs);
    if x < |win| && x % cs == 0 {
      assert x == k * cs;
      ChunkIndexBound(|win|, cs, k);
      LevelAt(win, cs, loudness, k);
      if k > 0 {
        assert x - cs == (k - 1) * cs by { Distrib(k - 1, 1, cs); }
        LevelAt(win, cs, loudness, k - 1);
        MultipleOrder(1, k, cs);
      }
      assert x in r <==> IsOnset(levels, threshold, k);
    } else if x in r {
      assert x == k * cs;
      ChunkIndexBound(|win|, cs, k);
      assert false;
    }
  }

  /** Exact characterisation of `detect_audio_activity`'s result in terms
      of the window, for a positive chunk size. */
  lemma DetectExact(audio: seq<int>, cfg: Config, loudness: seq<int> -> int, cs: nat)
    requires ResolveChunkSize(cfg.chunkSize, cfg.fps) == Ok(cs) && cs > 0
    ensures Detect(audio, cfg, loudness).Ok?
    ensures StrictlyIncreasing(Detect(audio, cfg, loudness).value)
    ensures var win := Window(audio, cfg.inTime, cfg.outTime);
            forall x: nat :: x in Detect(audio, cfg, loudness).value <==>
              StartsLoudRegion(win, cs, cfg.threshold, loudness, x)
  {
    var win := Window(audio, cfg.inTime, cfg.outTime);
    DetectUnfold(audio, cfg, loudness, cs);
    var r := Detect(audio, cfg, loudness).value;
    assert r == Onsets(Levels(win, cs, loudness), cfg.threshold, cs);
    forall x: nat
      ensures x in r <==> StartsLoudRegion(win, cs, cfg.threshold, loudness, x)
    {
      WindowOnset(win, cs, cfg.threshold, loudness, x);
    }
  }

  /** Reported offsets are relative to the start of the window, not of the
      track: offset `x` names the audio from `WindowStart + x` onward, and
      that chunk of the original track is louder than the threshold. */
  lemma OffsetsRelativeToWindow(audio: seq<int>, cfg: Config, loudness: seq<int> -> int, cs: nat, x: nat)
    requires ResolveChunkSize(cfg.chunkSize, cfg.fps) == Ok(cs) && cs > 0
    requires Detect(audio, cfg, loudness).Ok? && x in Detect(audio, cfg, loudness).value
    ensures var s := WindowStart(|audio|, cfg.inTime);
            var e := WindowEnd(|audio|, cfg.inTime, cfg.outTime);
            && s + x < e
            && Loud(loudness(audio[s + x .. Min(s + x + cs, e)]), cfg.threshold)
  {
    var win := Window(audio, cfg.inTime, cfg.outTime);
    var s := WindowStart(|audio|, cfg.inTime);
    var e := WindowEnd(|audio|, cfg.inTime, cfg.outTime);
    DetectUnfold(audio, cfg, loudness, cs);
    WindowOnset(win, cs, cfg.threshold, loudness, x);
    var m := Min(x + cs, |win|);
    SliceOfSlice(audio, s, e, x, m);
  }

  /** A chunk size at least as long as a non-empty window gives one chunk,
      so the result is `[0]` when the whole window is loud and `[]`
      otherwise. */
  lemma WholeWindowOneChunk(audio: seq<int>, cfg: Config, loudness: seq<int> -> int, cs: nat)
    requires ResolveChunkSize(cfg.chunkSize, cfg.fps) == Ok(cs)
    requires 0 < |Window(audio, cfg.inTime, cfg.outTime)| <= cs
    ensures var win := Window(audio, cfg.inTime, cfg.outTime);
            Detect(audio, cfg, loudness) ==
              Ok(if Loud(loudness(win), cfg.threshold) then [0] else [])
  {
    var win := Window(audio, cfg.inTime, cfg.outTime);
    DetectUnfold(audio, cfg, loudness, cs);
    SingleChunk(win, cs);
    var levels := Levels(win, cs, loudness);
    LevelAt(win, cs, loudness, 0);
    assert levels == [loudness(win)];
    assert Scan(levels, cfg.threshold, cs, Loud(levels[0], cfg.threshold), 1) == [];
    assert Onsets(levels, cfg.threshold, cs)
        == (if Loud(levels[0], cfg.threshold) then [0 * cs] else []);
  }

  /** At most `ceil(numChunks / 2)` offsets are reported. */
  lemma DetectCountBound(audio: seq<int>, cfg: Config, loudness: seq<int> -> int, cs: nat)
    requires ResolveChunkSize(cfg.chunkSize, cfg.fps) == Ok(cs) && cs > 0
    ensures var n := NumChunks(|Window(audio, cfg.inTime, cfg.outTime)|, cs);
            |Detect(audio, cfg, loudness).value| <= (n + 1) / 2
  {
    var win := Window(audio, cfg.inTime, cfg.outTime);
    DetectUnfold(audio, cfg, loudness, cs);
    OnsetCountBound(Levels(win, cs, loudness), cfg.threshold, cs);
  }

  /** Nothing is reported exactly when no chunk of the window is louder
      than the threshold. */
  lemma DetectEmptyIff(audio: seq<int>, cfg: Config, loudness: seq<int> -> int, cs: nat)
    requires ResolveChunkSize(cfg.chunkSize, cfg.fps) == Ok(cs) && cs > 0
    ensures var win := Window(audio, cfg.inTime, cfg.outTime);
            Detect(audio, cfg, loudness) == Ok([]) <==>
              forall k :: 0 <= k < NumChunks(|win|, cs) ==>
                !Loud(loudness(Chunk(win, cs, k)), cfg.threshold)
  {
    var win := Window(audio, cfg.inTime, cfg.outTime);
    var levels := Levels(win, cs, loudness);
    DetectUnfold(audio, cfg, loudness, cs);
    OnsetsEmptyIff(levels, cfg.threshold, cs);
    forall k | 0 <= k < |levels|
      ensures levels[k] == loudness(Chunk(win, cs, k))
    {
      LevelAt(win, cs, loudness, k);
    }
  }

  /** One iteration of the loop: the chunk at offset `k * cs` has level
      `levels[k]`, and the scan from chunk `k` is what this chunk emits
      followed by the scan from chunk `k + 1`. */
  lemma ScanStep(win: seq<int>, cs: nat, threshold: int, loudness: seq<int> -> int, k: nat, i: nat, active: bool)
    requires cs > 0 && i == k * cs && i < |win|
    ensures k < |Levels(win, cs, loudness)|
    ensures i + cs == (k + 1) * cs
    ensures var levels := Levels(win, cs, loudness);
            var loud := Loud(loudness(win[i .. Min(i + cs, |win|)]), threshold);
            && loud == Loud(levels[k], threshold)
            && Scan(levels, threshold, cs, active, k)
               == (if loud && !active then [i] else []) + Scan(levels, threshold, cs, loud, k + 1)
  {
    ChunkIndexBound(|win|, cs, k);
    LevelAt(win, cs, loudness, k);
    Distrib(k, 1, cs);
  }

  /** The loop of `detect_audio_activity`, statement for statement: walk the chunk
      offsets `0, cs, 2cs, ...` below the window length, keep the
      `isActive` flag, and append an offset only on a quiet-to-loud
      transition. It returns exactly the rising-edge fold `Onsets`. */
  method ScanLoop(win: seq<int>, cs: nat, threshold: int, loudness: seq<int> -> int)
    returns (timestamps: seq<nat>)
    requires cs > 0
    ensures timestamps == Onsets(Levels(win, cs, loudness), threshold, cs)
  {
    ghost var levels := Levels(win, cs, loudness);
    ghost var k: nat := 0;
    timestamps := [];
    var isActive := false;
    var i: nat := 0;
    while i < |win|
      invariant i == k * cs
      invariant k <= |levels|
      invariant isActive == (k > 0 && Loud(levels[k - 1], threshold))
      invariant timestamps + Scan(levels, threshold, cs, isActive, k) == Onsets(levels, threshold, cs)
      decreases |win| - i
    {
      ScanStep(win, cs, threshold, loudness, k, i, isActive);
      var chunk := win[i .. Min(i + cs, |win|)];
      if loudness(chunk) > threshold {
        if !isActive {
          timestamps := timestamps + [i];
          isActive := true;
        }
      } else {
        isActive := false;
      }
      i := i + cs;
      k := k + 1;
    }
    ChunkIndexBound(|win|, cs, k);
  }

  /** `detect_audio_activity` as a program: resolve the window and the
      chunk size, then run the loop. It returns
      exactly what the specification `Detect` describes. */
  method DetectAudioActivity(audio: seq<int>, cfg: Config, loudness: seq<int> -> int)
    returns (r: Result<seq<nat>, Error>)
    ensures r == Detect(audio, cfg, loudness)
  {
    var win := Window(audio, cfg.inTime, cfg.outTime);
    var chunkSize: int;
    match cfg.chunkSize {
      case None =>
        if cfg.fps == 0 {
          return Err(ZeroDivision);
        }
        chunkSize := TruncDiv(1000, cfg.fps);
      case Some(c) =>
        chunkSize := c;
    }
    assert ResolveChunkSize(cfg.chunkSize, cfg.fps) == Ok(chunkSize);
    if chunkSize == 0 {
      return Err(ZeroStep);
    } else if chunkSize < 0 {
      return Ok([]);
    }
    DetectUnfold(audio, cfg, loudness, chunkSize);
    var timestamps := ScanLoop(win, chunkSize, cfg.threshold, loudness);
    return Ok(timestamps);
  }
}
