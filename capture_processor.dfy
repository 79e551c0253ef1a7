/**
 * The decision rules of the frame processor
 * (components/processor/code/processor/capture_processor.py): the skip
 * pattern that thins a batch of frames, the clamp on the skip rate, the
 * matching of tracker boxes back to detections, and the bounded queue of
 * frame batches handed from the capture loop to the detection loop.
 */
module CaptureProcessor {
  import opened Wrappers

  const DEFAULT_SKIPRATE: int := 45
  /** The length of the skip pattern `_yolo_process` asks for. */
  const SKIP_PATTERN_LENGTH: nat := 100
  /** `300 / keep_sending_after_phash_diff` with the latter 2.5 seconds. */
  const MAX_PENDING_BATCHES: nat := 120

  // ---------------------------------------------------------------------
  // _discard_n (lines 299-325)
  // ---------------------------------------------------------------------

  /** The i-th of num evenly spaced points from 0 to length - 1, truncated. */
  function LinPoint(length: nat, num: nat, i: nat): int
    requires num >= 2
  {
    i * (length - 1) / (num - 1)
  }

  /** `np.linspace(0, length - 1, num=num).astype("int")`. */
  function LinSpace(length: nat, num: nat): (r: seq<int>)
    requires num >= 2
    ensures |r| == num
  {
    seq(num, i requires 0 <= i < num => LinPoint(length, num, i))
  }

  /** The common tail of `_discard_n`: position j holds values[0] when
      length - 1 - j is a point and values[1] otherwise, then the first
      position is overwritten with the start value. */
  function Pattern(length: nat, num: nat, v0: int, v1: int, startValue: int): (e: seq<int>)
    requires num >= 2 && length >= 1
    ensures |e| == length
  {
    var points := LinSpace(length, num);
    var e := seq(length, j requires 0 <= j < length => if length - 1 - j in points then v0 else v1);
    e[0 := startValue]
  }

  /** `_discard_n`: a pattern of length entries, 1 for a frame to discard. */
  function DiscardN(n: int, length: nat): (e: seq<int>)
    ensures |e| == length
  {
    if n <= 0 then seq(length, _ => 0)
    else if n >= length then seq(length, _ => 1)
    else if 2 * n < length then Pattern(length, n + 1, 1, 0, 0)
    else Pattern(length, length - n + 1, 0, 1, 1)
  }

  /** The positions of the ones of a pattern. */
  function Ones(e: seq<int>): set<int> {
    set j | 0 <= j < |e| && e[j] == 1
  }

  predicate Binary(e: seq<int>) {
    forall j :: 0 <= j < |e| ==> e[j] == 0 || e[j] == 1
  }

  /** Zeros of a pattern. */
  function Zeros(e: seq<int>): set<int> {
    set j | 0 <= j < |e| && e[j] == 0
  }

  /** A 0/1 pattern is split between its ones and its zeros. */
  lemma {:induction false} OnesZerosCard(e: seq<int>)
    requires Binary(e)
    ensures |Ones(e)| + |Zeros(e)| == |e|
  {
    if e != [] {
      var init := e[..|e| - 1];
      OnesZerosCard(init);
      var last := |e| - 1;
      if e[last] == 1 {
        assert Ones(e) == Ones(init) + {last};
        assert Zeros(e) == Zeros(init);
      } else {
        assert Ones(e) == Ones(init);
        assert Zeros(e) == Zeros(init) + {last};
      }
    }
  }

  // Integer division facts the point arithmetic needs.

  lemma DivMod(x: int, d: int)
    requires x >= 0 && d > 0
    ensures x == d * (x / d) + x % d && 0 <= x % d < d
  {
  }

  lemma MulDistrib(d: int, a: int, b: int)
    ensures d * (a + b) == d * a + d * b
  {
  }

  lemma MulLe(d: int, a: int, b: int)
    requires d > 0 && a <= b
    ensures d * a <= d * b
  {
    MulDistrib(d, a, b - a);
    assert d * (b - a) >= 0;
  }

  /** Any q with d * q <= z is at most z / d. */
  lemma DivLower(z: int, d: int, q: int)
    requires d > 0 && z >= 0 && d * q <= z
    ensures q <= z / d
  {
    DivMod(z, d);
    if q > z / d {
      MulLe(d, z / d + 1, q);
      MulDistrib(d, z / d, 1);
    }
  }

  lemma DivAddLe(x: int, y: int, d: int)
    requires x >= 0 && y >= 0 && d > 0
    ensures x / d + y / d <= (x + y) / d
  {
    DivMod(x, d);
    DivMod(y, d);
    MulDistrib(d, x / d, y / d);
    DivLower(x + y, d, x / d + y / d);
  }

  lemma MulDivCancel(d: int, a: int)
    requires d > 0 && a >= 0
    ensures d * a / d == a
  {
    MulLe(d, 0, a);
    DivMod(d * a, d);
    DivLower(d * a, d, a);
    if d * a / d > a {
      MulLe(d, a + 1, d * a / d);
      MulDistrib(d, a, 1);
    }
  }

  /** Consecutive points lie at least (length - 1) / (num - 1) apart. */
  lemma {:induction false} PointGap(length: nat, num: nat, i: nat, j: nat)
    requires num >= 2 && length >= 1 && i < j < num
    ensures LinPoint(length, num, j) >= LinPoint(length, num, i) + (length - 1) / (num - 1)
    decreases j - i
  {
    var d := num - 1;
    MulDistrib(length - 1, j - 1, 1);
    assert (j - 1) * (length - 1) + (length - 1) == j * (length - 1);
    assert (j - 1) * (length - 1) >= 0;
    DivAddLe((j - 1) * (length - 1), length - 1, d);
    if j > i + 1 {
      PointGap(length, num, i, j - 1);
      DivLower(length - 1, d, 0);
    }
  }

  /** The points run from 0 to length - 1. */
  lemma PointEnds(length: nat, num: nat)
    requires num >= 2 && length >= 1
    ensures LinPoint(length, num, 0) == 0
    ensures LinPoint(length, num, num - 1) == length - 1
  {
    MulDivCancel(num - 1, length - 1);
    assert (num - 1) * (length - 1) == (length - 1) * (num - 1);
  }

  lemma PointsIncrease(length: nat, num: nat, i: nat, j: nat)
    requires 2 <= num <= length && i < j < num
    ensures LinPoint(length, num, i) < LinPoint(length, num, j)
  {
    PointGap(length, num, i, j);
    DivLower(length - 1, num - 1, 1);
  }

  /** The position point i marks, counted from the end. */
  function MarkPos(length: nat, num: nat, i: nat): int
    requires num >= 2
  {
    length - 1 - LinPoint(length, num, i)
  }

  /** The positions the first k points mark. */
  function MarkedUpTo(length: nat, num: nat, k: nat): set<int>
    requires num >= 2
  {
    set i | 0 <= i < k :: MarkPos(length, num, i)
  }

  /** The positions marked by all points but the last (which marks
      position 0, overwritten by the start value). */
  function Marked(length: nat, num: nat): set<int>
    requires num >= 2
  {
    MarkedUpTo(length, num, num - 1)
  }

  /** One more point marks one more position. */
  lemma MarkedUpToStep(length: nat, num: nat, k: nat)
    requires num >= 2 && k > 0
    ensures MarkedUpTo(length, num, k) == MarkedUpTo(length, num, k - 1) + {MarkPos(length, num, k - 1)}
  {
  }

  /** Distinct points mark distinct positions. */
  lemma {:induction false} MarkedUpToCard(length: nat, num: nat, k: nat)
    requires 2 <= num <= length && k <= num
    ensures |MarkedUpTo(length, num, k)| == k
  {
    if k > 0 {
      MarkedUpToCard(length, num, k - 1);
      MarkedUpToStep(length, num, k);
      var p := MarkPos(length, num, k - 1);
      if p in MarkedUpTo(length, num, k - 1) {
        var i :| 0 <= i < k - 1 && MarkPos(length, num, i) == p;
        PointsIncrease(length, num, i, k - 1);
      }
    }
  }

  lemma MarkedCard(length: nat, num: nat)
    requires 2 <= num <= length
    ensures |Marked(length, num)| == num - 1
  {
    MarkedUpToCard(length, num, num - 1);
  }

  /** The marked positions lie inside the pattern. */
  lemma MarkedInRange(length: nat, num: nat, j: int)
    requires 2 <= num <= length && j in Marked(length, num)
    ensures 1 <= j < length
  {
    var i :| 0 <= i < num - 1 && MarkPos(length, num, i) == j;
    PointEnds(length, num);
    PointsIncrease(length, num, i, num - 1);
    if i > 0 {
      PointsIncrease(length, num, 0, i);
    }
  }

  /** Each position of the pattern: the start value first, then values[0]
      exactly at the marked positions. */
  lemma PatternAt(length: nat, num: nat, v0: int, v1: int, startValue: int, j: int)
    requires 2 <= num <= length && 0 <= j < length
    ensures Pattern(length, num, v0, v1, startValue)[j] ==
      if j == 0 then startValue else if j in Marked(length, num) then v0 else v1
    ensures 0 !in Marked(length, num)
  {
    PointEnds(length, num);
    if 0 in Marked(length, num) {
      var i :| 0 <= i < num - 1 && MarkPos(length, num, i) == 0;
      PointsIncrease(length, num, i, num - 1);
    }
    if j in Marked(length, num) {
      var i :| 0 <= i < num - 1 && MarkPos(length, num, i) == j;
      assert LinSpace(length, num)[i] == length - 1 - j;
    }
    if 1 <= j && length - 1 - j in LinSpace(length, num) {
      var i :| 0 <= i < num && LinSpace(length, num)[i] == length - 1 - j;
      assert i != num - 1;
      assert j == MarkPos(length, num, i);
    }
  }

  /** A pattern is 0/1 when its values are. */
  lemma PatternBinary(length: nat, num: nat, v0: int, v1: int, startValue: int)
    requires 2 <= num <= length
    requires v0 in {0, 1} && v1 in {0, 1} && startValue in {0, 1}
    ensures Binary(Pattern(length, num, v0, v1, startValue))
  {
    var e := Pattern(length, num, v0, v1, startValue);
    forall j | 0 <= j < length ensures e[j] == 0 || e[j] == 1 {
      PatternAt(length, num, v0, v1, startValue, j);
    }
  }

  /** The positions of a pattern holding v0, when the start value and v1
      differ from it, are the marked ones. */
  lemma PatternMarked(length: nat, num: nat, v0: int, v1: int, startValue: int)
    requires 2 <= num <= length && v1 != v0 && startValue != v0
    ensures (set j | 0 <= j < length && Pattern(length, num, v0, v1, startValue)[j] == v0) == Marked(length, num)
  {
    var e := Pattern(length, num, v0, v1, startValue);
    forall j | j in Marked(length, num) ensures 0 <= j < length && e[j] == v0 {
      MarkedInRange(length, num, j);
      PatternAt(length, num, v0, v1, startValue, j);
    }
    forall j | 0 <= j < length && e[j] == v0 ensures j in Marked(length, num) {
      PatternAt(length, num, v0, v1, startValue, j);
    }
  }

  /** `_discard_n(n, length)` has exactly n ones, clamped to 0..length:
      all zeros when n <= 0, all ones when n >= length. */
  lemma DiscardNCount(n: int, length: nat)
    ensures Binary(DiscardN(n, length))
    ensures |Ones(DiscardN(n, length))| == if n <= 0 then 0 else if n >= length then length else n
  {
    var e := DiscardN(n, length);
    if n <= 0 {
      assert Ones(e) == {};
    } else if n >= length {
      assert Zeros(e) == {};
      OnesZerosCard(e);
    } else if 2 * n < length {
      PatternBinary(length, n + 1, 1, 0, 0);
      PatternMarked(length, n + 1, 1, 0, 0);
      assert Ones(e) == Marked(length, n + 1);
      MarkedCard(length, n + 1);
    } else {
      PatternBinary(length, length - n + 1, 0, 1, 1);
      PatternMarked(length, length - n + 1, 0, 1, 1);
      assert Zeros(e) == Marked(length, length - n + 1);
      MarkedCard(length, length - n + 1);
      OnesZerosCard(e);
    }
  }

  /** The first entry is 0 when fewer than half the frames are discarded,
      1 otherwise. */
  lemma DiscardNFirst(n: int, length: nat)
    requires 0 < n < length
    ensures DiscardN(n, length)[0] == if 2 * n < length then 0 else 1
  {
  }

  /** Discarding fewer than half the frames never discards two in a row,
      because the points then lie at least two apart. */
  lemma DiscardNSpread(n: int, length: nat, j: nat)
    requires 0 < n && 2 * n < length && j + 1 < length
    ensures !(DiscardN(n, length)[j] == 1 && DiscardN(n, length)[j + 1] == 1)
  {
    var num := n + 1;
    PatternAt(length, num, 1, 0, 0, j);
    PatternAt(length, num, 1, 0, 0, j + 1);
    var e := DiscardN(n, length);
    if e[j] == 1 && e[j + 1] == 1 {
      var a :| 0 <= a < num - 1 && MarkPos(length, num, a) == j;
      var b :| 0 <= b < num - 1 && MarkPos(length, num, b) == j + 1;
      assert (length - 1) / n >= 2 by {
        DivLower(length - 1, n, 2);
      }
      if a < b {
        PointGap(length, num, a, b);
      } else {
        PointGap(length, num, b, a);
      }
    }
  }

  // ---------------------------------------------------------------------
  // The skip rate and its cyclic use (lines 165-174)
  // ---------------------------------------------------------------------

  /** `max(DEFAULT_SKIPRATE, raw)`; the raw rate comes from a logarithm of
      the queue length, or 0 when that logarithm is undefined. */
  function SkipRate(raw: int): (r: int)
    ensures r >= DEFAULT_SKIPRATE && (r == raw || r == DEFAULT_SKIPRATE)
    ensures raw >= DEFAULT_SKIPRATE ==> r == raw
  {
    if raw > DEFAULT_SKIPRATE then raw else DEFAULT_SKIPRATE
  }

  /** The pattern a batch is thinned with. */
  function FrameSkip(raw: int): (e: seq<int>)
    ensures |e| == SKIP_PATTERN_LENGTH
  {
    DiscardN(SkipRate(raw), SKIP_PATTERN_LENGTH)
  }

  /** The frame at listIndex of a batch is skipped. */
  predicate Skipped(pattern: seq<int>, listIndex: nat)
    requires |pattern| > 0
  {
    pattern[listIndex % |pattern|] == 1
  }

  /** The pattern repeats every hundred frames of a batch, and each
      hundred skips exactly the clamped rate's worth, so at least
      DEFAULT_SKIPRATE. */
  lemma SkipsPerHundred(raw: int, b: nat)
    ensures forall j :: 0 <= j < SKIP_PATTERN_LENGTH ==>
      (Skipped(FrameSkip(raw), b * SKIP_PATTERN_LENGTH + j) <==> FrameSkip(raw)[j] == 1)
    ensures |Ones(FrameSkip(raw))| == if SkipRate(raw) >= SKIP_PATTERN_LENGTH then SKIP_PATTERN_LENGTH else SkipRate(raw)
    ensures |Ones(FrameSkip(raw))| >= DEFAULT_SKIPRATE
  {
    DiscardNCount(SkipRate(raw), SKIP_PATTERN_LENGTH);
    forall j | 0 <= j < SKIP_PATTERN_LENGTH
      ensures Skipped(FrameSkip(raw), b * SKIP_PATTERN_LENGTH + j) <==> FrameSkip(raw)[j] == 1
    {
      assert (b * SKIP_PATTERN_LENGTH + j) % SKIP_PATTERN_LENGTH == j;
    }
  }

  // ---------------------------------------------------------------------
  // _track_ids_for_detections (lines 270-297)
  // ---------------------------------------------------------------------

  /** A bounding box: top-left and bottom-right corners. */
  datatype Box = Box(x1: real, y1: real, x2: real, y2: real)

  /** A row of the tracker's output: its box and its (float) track id. */
  datatype TrackRow = TrackRow(box: Box, id: real)

  function Square(x: real): real { x * x }

  /** The squared distance between the corner coordinates of two boxes. */
  function SqDist(a: Box, b: Box): (r: real)
    ensures r >= 0.0
  {
    Square(a.x1 - b.x1) + Square(a.y1 - b.y1) + Square(a.x2 - b.x2) + Square(a.y2 - b.y2)
  }

  /** The squared distances of the detections from a tracker row. */
  function Distances(dets: seq<Box>, t: TrackRow): (ss: seq<real>)
    ensures |ss| == |dets|
  {
    seq(|dets|, j requires 0 <= j < |dets| => SqDist(dets[j], t.box))
  }

  /** `np.argmin`: the first index of the least value. */
  function ArgMin(s: seq<real>): (r: nat)
    requires |s| > 0
    ensures r < |s|
    ensures forall j :: 0 <= j < |s| ==> s[r] <= s[j]
    ensures forall j :: 0 <= j < r ==> s[r] < s[j]
  {
    if |s| == 1 then 0
    else
      var m := ArgMin(s[..|s| - 1]);
      if s[|s| - 1] < s[m] then |s| - 1 else m
  }

  /** `np.square((h + w) * 0.5 * 0.02)`, for an image h by w pixels. */
  function MatchLimit(h: nat, w: nat): real {
    Square((h + w) as real * 0.5 * 0.02)
  }

  /** Python's `int()` on a float: truncation toward zero. */
  function Trunc(x: real): int {
    if x >= 0.0 then x.Floor else -((-x).Floor)
  }

  /** The detection a tracker row lands on. */
  function RowTarget(dets: seq<Box>, t: TrackRow): (m: nat)
    requires |dets| > 0
    ensures m < |dets|
  {
    ArgMin(Distances(dets, t))
  }

  /** What a tracker row writes at the detection it lands on: its id when
      close enough, -1 otherwise. */
  function RowValue(dets: seq<Box>, t: TrackRow, limit: real): int
    requires |dets| > 0
  {
    if Distances(dets, t)[RowTarget(dets, t)] < limit then Trunc(t.id) else -1
  }

  /** The track ids after the given tracker rows, in order. */
  function TrackIds(dets: seq<Box>, rows: seq<TrackRow>, limit: real): (r: seq<int>)
    requires |dets| > 0 || rows == []
    ensures |r| == |dets|
  {
    if rows == [] then seq(|dets|, _ => -1)
    else
      var ids := TrackIds(dets, rows[..|rows| - 1], limit);
      var t := rows[|rows| - 1];
      ids[RowTarget(dets, t) := RowValue(dets, t, limit)]
  }

  /** _track_ids_for_detections; the numpy broadcast over an empty
      detection array fails when there are tracker rows, hence the
      precondition. */
  method TrackIdsForDetections(h: nat, w: nat, dets: seq<Box>, tracks: seq<TrackRow>) returns (trackIds: seq<int>)
    requires |dets| > 0 || tracks == []
    ensures trackIds == TrackIds(dets, tracks, MatchLimit(h, w))
  {
    trackIds := seq(|dets|, _ => -1);
    var sortMatchLimit := MatchLimit(h, w);
    for i := 0 to |tracks|
      invariant trackIds == TrackIds(dets, tracks[..i], sortMatchLimit)
    {
      assert tracks[..i + 1][..i] == tracks[..i];
      var ss := Distances(dets, tracks[i]);
      var minRow := ArgMin(ss);
      if ss[minRow] < sortMatchLimit {
        trackIds := trackIds[minRow := Trunc(tracks[i].id)];
      } else {
        trackIds := trackIds[minRow := -1];
      }
    }
    assert tracks[..|tracks|] == tracks;
  }

  /** Tracker row k lands on detection j and no later row does. */
  predicate LastLanding(dets: seq<Box>, rows: seq<TrackRow>, j: nat, k: nat)
    requires |dets| > 0
  {
    k < |rows| && RowTarget(dets, rows[k]) == j
    && forall l :: k < l < |rows| ==> RowTarget(dets, rows[l]) != j
  }

  /** No tracker row lands on detection j. */
  predicate NoLanding(dets: seq<Box>, rows: seq<TrackRow>, j: nat)
    requires |dets| > 0
  {
    forall k :: 0 <= k < |rows| ==> RowTarget(dets, rows[k]) != j
  }

  /** The last writer wins: a detection carries what the last tracker row
      landing on it wrote, and -1 when no row lands on it. */
  lemma {:induction false} TrackIdsLastWriter(dets: seq<Box>, rows: seq<TrackRow>, limit: real, j: nat)
    requires |dets| > 0 && j < |dets|
    ensures NoLanding(dets, rows, j) ==> TrackIds(dets, rows, limit)[j] == -1
    ensures forall k: nat :: LastLanding(dets, rows, j, k) ==> TrackIds(dets, rows, limit)[j] == RowValue(dets, rows[k], limit)
  {
    if rows != [] {
      var n := |rows| - 1;
      var init := rows[..n];
      TrackIdsLastWriter(dets, init, limit, j);
      TrackIdsStep(dets, rows, limit, j);
      if RowTarget(dets, rows[n]) != j {
        LandingOnPrefix(dets, rows, j);
      } else {
        assert !NoLanding(dets, rows, j);
        forall k | LastLanding(dets, rows, j, k) ensures k == n { }
      }
    }
  }

  /** When the last row lands elsewhere, landings on j are those of the rows before it. */
  lemma LandingOnPrefix(dets: seq<Box>, rows: seq<TrackRow>, j: nat)
    requires |dets| > 0 && rows != [] && RowTarget(dets, rows[|rows| - 1]) != j
    ensures NoLanding(dets, rows, j) ==> NoLanding(dets, rows[..|rows| - 1], j)
    ensures forall k: nat :: LastLanding(dets, rows, j, k) ==> LastLanding(dets, rows[..|rows| - 1], j, k)
  {
  }

  /** One more tracker row overwrites only the detection it lands on. */
  lemma TrackIdsStep(dets: seq<Box>, rows: seq<TrackRow>, limit: real, j: nat)
    requires |dets| > 0 && j < |dets| && rows != []
    ensures TrackIds(dets, rows, limit)[j] ==
      if RowTarget(dets, rows[|rows| - 1]) == j then RowValue(dets, rows[|rows| - 1], limit)
      else TrackIds(dets, rows[..|rows| - 1], limit)[j]
  {
  }

  /** Every id is -1 or the truncated id of a tracker row that lands on
      that detection within the limit; with no tracker rows all are -1. */
  lemma {:induction false} TrackIdsFromRows(dets: seq<Box>, rows: seq<TrackRow>, limit: real, j: nat)
    requires (|dets| > 0 || rows == []) && j < |dets|
    ensures rows == [] ==> TrackIds(dets, rows, limit)[j] == -1
    ensures TrackIds(dets, rows, limit)[j] == -1 ||
      exists k :: 0 <= k < |rows| && RowTarget(dets, rows[k]) == j
        && Distances(dets, rows[k])[j] < limit && TrackIds(dets, rows, limit)[j] == Trunc(rows[k].id)
  {
    if rows != [] {
      var init := rows[..|rows| - 1];
      var t := rows[|rows| - 1];
      TrackIdsFromRows(dets, init, limit, j);
      if RowTarget(dets, t) == j {
        if TrackIds(dets, rows, limit)[j] != -1 {
          assert RowTarget(dets, rows[|rows| - 1]) == j;
        }
      } else if TrackIds(dets, init, limit)[j] != -1 {
        var k :| 0 <= k < |init| && RowTarget(dets, init[k]) == j
          && Distances(dets, init[k])[j] < limit && TrackIds(dets, init, limit)[j] == Trunc(init[k].id);
        assert rows[k] == init[k];
      }
    }
  }

  // ---------------------------------------------------------------------
  // The batch queue (lines 123-129, 160)
  // ---------------------------------------------------------------------

  /** The pending batches after the capture loop hands over its frame
      cache: a non-empty cache is appended while fewer than
      MAX_PENDING_BATCHES batches wait, and dropped otherwise. */
  function HandedOff<T>(pending: seq<seq<T>>, frameCache: seq<T>): seq<seq<T>> {
    if |frameCache| > 0 && |pending| < MAX_PENDING_BATCHES then pending + [frameCache] else pending
  }

  /** The queue never holds more than MAX_PENDING_BATCHES batches, a
      hand-off only ever appends, and a full queue drops the batch. */
  lemma HandedOffBounded<T>(pending: seq<seq<T>>, frameCache: seq<T>)
    requires |pending| <= MAX_PENDING_BATCHES
    ensures |HandedOff(pending, frameCache)| <= MAX_PENDING_BATCHES
    ensures HandedOff(pending, frameCache)[..|pending|] == pending
    ensures |pending| == MAX_PENDING_BATCHES ==> HandedOff(pending, frameCache) == pending
    ensures |HandedOff(pending, frameCache)| == |pending| + 1 <==> |frameCache| > 0 && |pending| < MAX_PENDING_BATCHES
  {
  }

  /** One event of the two loops sharing the queue. */
  datatype QueueOp<T> = HandOff(frameCache: seq<T>) | Pop

  /** Replaying the events: the pending batches, the batches popped so
      far, and the batches accepted so far. */
  datatype QueueTrace<T> = QueueTrace(pending: seq<seq<T>>, popped: seq<seq<T>>, accepted: seq<seq<T>>)

  function Replay<T>(ops: seq<QueueOp<T>>): QueueTrace<T> {
    if ops == [] then QueueTrace([], [], [])
    else
      var q := Replay(ops[..|ops| - 1]);
      match ops[|ops| - 1]
      case HandOff(fc) =>
        var pending := HandedOff(q.pending, fc);
        QueueTrace(pending, q.popped, if |pending| == |q.pending| then q.accepted else q.accepted + [fc])
      case Pop =>
        if q.pending == [] then q else QueueTrace(q.pending[1..], q.popped + [q.pending[0]], q.accepted)
  }

  /** Batches leave the queue in the order they were accepted: what was
      popped followed by what waits is exactly what was accepted, and the
      queue stays bounded. */
  lemma {:induction false} ReplayFifo<T>(ops: seq<QueueOp<T>>)
    ensures Replay(ops).popped + Replay(ops).pending == Replay(ops).accepted
    ensures |Replay(ops).pending| <= MAX_PENDING_BATCHES
  {
    if ops != [] {
      ReplayFifo(ops[..|ops| - 1]);
      var q := Replay(ops[..|ops| - 1]);
      match ops[|ops| - 1]
      case HandOff(fc) =>
      case Pop =>
        if q.pending != [] {
          assert q.popped + [q.pending[0]] + q.pending[1..] == q.popped + q.pending;
        }
    }
  }

  /** self.image_cache, shared by the capture loop and the detection loop. */
  class ImageCache<T> {
    var pending: seq<seq<T>>

    predicate Valid()
      reads this
    {
      |pending| <= MAX_PENDING_BATCHES
    }

    constructor ()
      ensures Valid() && pending == []
    {
      pending := [];
    }

    /** The capture loop's hand-off; the frame cache is cleared either way. */
    method HandOffBatch(frameCache: seq<T>) returns (cleared: seq<T>)
      requires Valid()
      modifies this
      ensures Valid()
      ensures pending == HandedOff(old(pending), frameCache)
      ensures cleared == []
    {
      cleared := frameCache;
      if |cleared| > 0 {
        if |pending| < MAX_PENDING_BATCHES {
          pending := pending + [cleared];
        }
        cleared := [];
      }
    }

    /** `self.image_cache.pop(0)` once the queue is non-empty. */
    method PopBatch() returns (batch: Option<seq<T>>)
      requires Valid()
      modifies this
      ensures Valid()
      ensures old(pending) == [] ==> batch == None && pending == []
      ensures old(pending) != [] ==> batch == Some(old(pending)[0]) && pending == old(pending)[1..]
    {
      if |pending| == 0 {
        return None;
      }
      batch := Some(pending[0]);
      pending := pending[1..];
    }
  }
}
