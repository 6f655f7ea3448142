# PremiereBlippr activity detector, in Dafny

PremiereBlippr finds moments of audio activity ("blips") in one audio track
of a video, so that an editor can put markers on them. Its one piece of
logic is `detect_audio_activity` in `DetectBlips.py`. It slices the decoded
audio to an optional `[in_time, out_time)` window. It resolves a chunk size,
either supplied or `int(1000 / fps)` milliseconds. It then walks the window
in fixed-size chunks. A two-state machine (`is_active`) reports a chunk's
start offset only when the audio goes from quiet to loud. "Loud" means the
chunk's dBFS level is strictly above the threshold.

This project models that function in integer milliseconds and proves what it
returns.

- `wrappers.dfy`, module `Wrappers`: `Option` (Python's `None` arguments) and
  `Result` (a value, or the exception that stopped the run).
- `chunking.dfy`, module `Chunking`: chunk-size resolution (`int(1000/fps)` is
  truncation toward zero), Python's `range(0, len, cs)`, and the chunks
  `win[i : i + cs]`. It proves that the chunks partition the window.
- `edges.dfy`, module `Edges`: the rising-edge state machine `Scan`, written as
  a recursive fold over per-chunk levels that carries the `active` flag. A
  stateless reference `OnsetFilter` keeps chunk `k` when it is loud and its
  predecessor is not. The two are proved equal. On top of that the module
  proves ordering, the exact characterisation of emitted offsets, emptiness,
  the reset-on-any-dip behaviour and the count bound.
- `detector.dfy`, module `Detector`: the keyword defaults, window defaults and slicing, the full
  specification `Detect`, and `ScanLoop` / `DetectAudioActivity`. These two
  methods mirror the source's loop statement for statement and are proved to
  return exactly what `Detect` describes.

Audio is a `seq<int>` with one entry per millisecond. The model never
interprets the entries. The chunk loudness, pydub's `chunk.dBFS`, is a
caller-supplied function `loudness: seq<int> -> int`, and the threshold is an
`int`. Reported offsets are `nat` milliseconds. The source divides them by
1000.0 to get seconds.

The source raises two exceptions, and the model turns them into `Err` values:
- `ZeroDivision`: no chunk size is given and `fps == 0` (line 57).
- `ZeroStep`: the resolved chunk size is 0 (line 60). `range` raises this
  whether the size was given as 0 or came out of `int(1000/fps)` with
  `|fps| > 1000`.

A negative chunk size makes the range empty, so the result is `[]`. This
happens when it is supplied negative, or when no size is supplied and
`-1000 <= fps < 0`. For `fps <= -1001` the derived size is 0 and `range`
raises instead.

`int(1000/fps)` truncates toward zero, so `fps = 24` gives 41 where rounding
would give 42. With the default `fps=25` the chunk size is 40 ms.

## Model

| member | source | states |
|---|---|---|
| Chunking.TruncDiv | DetectBlips.py:57 | `int(n / d)` truncates toward zero: `q * d` lies in `[0, n]` and falls short of `n` by less than `abs(d)`; `q >= 0` when `d > 0` and `q <= 0` when `d < 0` |
| Chunking.ResolveChunkSize | DetectBlips.py:57 | a supplied chunk size is used unchanged; with none, `fps == 0` is a division error, and any other `fps` gives the truncated quotient `1000 / fps` |
| Detector.TruncationToZero | DetectBlips.py:57 | the derived chunk size is 0 exactly when `abs(fps) > 1000` |
| Chunking.ChunkIndexBound | DetectBlips.py:60 | chunk `k` exists (`k < ceil(len / cs)`) exactly when its offset `k * cs` is inside the window |
| Chunking.Range | DetectBlips.py:60 | `range(0, len, cs)` fails iff `cs == 0`, is empty for `cs < 0`, and otherwise has `ceil(len / cs)` elements, the `k`-th being `k * cs` |
| Chunking.RangeOffset | DetectBlips.py:60 | the `k`-th value of `range(0, len, cs)` is `k * cs` and lies below `len`, for every chunk index `k` |
| Chunking.RangeMembership | DetectBlips.py:60 | a value is produced by `range(0, len, cs)` iff it is a multiple of `cs` in `[0, len)` |
| Chunking.Chunk | DetectBlips.py:61 | every chunk is non-empty and at most `cs` long; every chunk but the last is exactly `cs` long; the last ends at the window's end |
| Chunking.ChunksPartitionWindow | DetectBlips.py:60-61 | the chunks laid end to end give back the window exactly (no gap, no overlap) |
| Chunking.SingleChunk | DetectBlips.py:60-61 | when `cs >= len > 0` there is exactly one chunk and it is the whole window |
| Edges.ScanShape | DetectBlips.py:59-68 | every emitted offset is a multiple of `cs` naming a chunk at or after the scan position, and the output is strictly increasing |
| Edges.Onsets | DetectBlips.py:59-68 | the detector's output over a window's levels is strictly increasing, hence free of duplicates |
| Edges.ScanIsFilter | DetectBlips.py:59-68 | the `is_active` state machine emits exactly what the stateless onset filter keeps, provided the flag records whether the previous chunk was loud |
| Edges.OnsetsCharacterised | DetectBlips.py:63-68 | `k * cs` is emitted iff chunk `k` is loud and is either chunk 0 or follows a quiet chunk; nothing else is ever emitted |
| Edges.RunStart | DetectBlips.py:63-68 | every loud chunk lies in a run of loud chunks that begins at an onset |
| Edges.OnsetsEmptyIff | DetectBlips.py:63-68 | the output is empty iff no chunk is strictly louder than the threshold |
| Edges.DipSplitsRun | DetectBlips.py:63-68 | one quiet chunk between loud chunks resets the state: the chunk after the dip is emitted, and an earlier onset is emitted too |
| Edges.SingleRegion | DetectBlips.py:63-68 | a single loud region spanning chunks `a..b` produces exactly `[a * cs]` |
| Edges.TwoRegions | DetectBlips.py:63-68 | two loud regions separated by at least one quiet chunk produce exactly two offsets, the first chunk of each region |
| Edges.ScanCount | DetectBlips.py:59-68 | the `is_active` fold emits at most one offset per two chunks it walks, plus one when it starts inactive |
| Edges.OnsetCountBound | DetectBlips.py:60-68 | at most `ceil(numChunks / 2)` offsets are emitted |
| Detector.DefaultChunkSize | DetectBlips.py:31 | with the keyword defaults and no chunk size, the chunk size is `int(1000/25) == 40` ms |
| Detector.WindowStart | DetectBlips.py:46-52 | the window starts at the in-time (0 when absent); an in-time inside the track is used as is, one past the end is clamped to the track length |
| Detector.WindowEnd | DetectBlips.py:48-52 | the window ends at the out-time (the full length when absent); an out-time between the start and the end of the track is used as is, one past the end is clamped to the length, one before the start makes the window empty |
| Detector.Window | DetectBlips.py:52 | window position `t` is audio position `start + t`, and the window length is `end - start` |
| Detector.WindowDefaults | DetectBlips.py:46-52 | with neither time given, the scanned window is the entire track |
| Detector.WindowClamped | DetectBlips.py:52 | an out-time past the end reads to the end of the track (`audio[in:]`), and an in-time at or past the end leaves an empty window |
| Detector.WindowBetween | DetectBlips.py:52 | with both times inside the track the window is `audio[in .. out]`, and it is empty when `out <= in` |
| Detector.Levels | DetectBlips.py:60-63 | one level per chunk: `ceil(len / cs)` of them |
| Detector.LevelAt | DetectBlips.py:60-63 | level `k` is the loudness of `win[k*cs : k*cs + cs]`, and that offset lies inside the window |
| Detector.LevelsFollowRange | DetectBlips.py:60-63 | there is one level per value `i` of `range(0, len, cs)`, and it is the loudness of the slice `win[i : i + cs]` |
| Detector.ScanWindow | DetectBlips.py:55-70 | the scan of a window fails iff the chunk size is 0, is empty for a negative size, and otherwise returns strictly increasing offsets inside the window |
| Detector.Detect | DetectBlips.py:31-70 | the detector fails with a division error iff no chunk size is given and `fps == 0`, and with a zero-step error iff the chunk size is given as 0 or derived from `abs(fps) > 1000` |
| Detector.NegativeStepReportsNothing | DetectBlips.py:57-60 | a supplied negative chunk size, or no chunk size with `-1000 <= fps < 0`, yields `Ok([])`: an empty range and no error |
| Detector.WindowOnset | DetectBlips.py:59-68 | offset `x` is reported iff it starts a chunk of the window, that chunk is loud, and the chunk before it (if any) is quiet |
| Detector.DetectExact | DetectBlips.py:52-68 | for a positive chunk size the run succeeds, its offsets are strictly increasing, and an offset is reported iff it starts a loud chunk of the window whose predecessor (if any) is quiet; this pins the whole result down |
| Detector.OffsetsRelativeToWindow | DetectBlips.py:52-65 | a reported offset `x` is relative to the slice start: the loud chunk it names begins at position `start + x` of the original track |
| Detector.WholeWindowOneChunk | DetectBlips.py:60-68 | when the chunk size is at least the (non-empty) window length, the result is `[0]` if the whole window is loud and `[]` otherwise |
| Detector.DetectCountBound | DetectBlips.py:60-68 | at most `ceil(ceil(len / cs) / 2)` offsets are reported |
| Detector.DetectEmptyIff | DetectBlips.py:60-68 | nothing is reported iff no chunk of the window is strictly louder than the threshold |
| Detector.ScanLoop | DetectBlips.py:59-68 | the imperative loop over `i = 0, cs, 2cs, ...` with the `is_active` flag returns exactly the rising-edge fold over the chunk levels |
| Detector.DetectAudioActivity | DetectBlips.py:31-70 | the whole function as a program (defaults, slicing, chunk-size resolution, loop) returns exactly the specification `Detect`, errors included |

## Left out

- `extract_audio_track` (DetectBlips.py:6-29) is left out. It runs ffmpeg in a subprocess, and that behaviour is external.
- Decoding the file (`AudioSegment.from_file`, line 43) is left out. The model receives the decoded audio as a sequence.
- The dBFS measurement (line 63) is left out. It is floating-point RMS arithmetic inside pydub, which is not part of this model. It is replaced by the caller-supplied integer `loudness`. pydub reports a silent chunk as minus infinity; that has no integer counterpart and stands for "below any threshold".
- The threshold and levels are integers rather than floats. The strict comparison `>` is kept exactly.
- The conversions between seconds and milliseconds (`* 1000`, `/ 1000.0`, lines 49, 52 and 65) are left out, because times are integer milliseconds throughout. The default out-time's round trip `len / 1000.0 * 1000` is taken as exact.
- The slice on line 52 is modelled as Python-style clamped slicing: both ends are clamped to the length, and the slice is empty when the end is at or before the start. pydub's own position parsing is not part of this model. Negative positions, which pydub counts from the end, are excluded because times are `nat`.
- Chunking.TruncDiv: models `int(1000 / fps)` as exact truncation of the rational quotient. Python computes a correctly rounded float first. For an integer `fps` the two agree: a non-integral quotient stays at least `1 / abs(fps)` away from the next integer, far more than one float rounding step.
- `analyze_video_audio_activity` and `main` (DetectBlips.py:72-125) are left out. They are plumbing: temp-file handling, argparse, printing, and JSON written to a fixed path.
- main.jsx is left out. It is Premiere host glue: markers, clips, file polling and launching a batch script.
- Determinism and idempotence (the same input gives the same output) hold because every member is a pure function or a method equal to one. No separate lemma states them.
