/**
 * The records the region-of-interest plate analyser of the reader component
 * works on (components/reader/code/roi_plate_analyser.py): one camera frame's
 * OCR results and object detections, the plate record a frame yields, and
 * the rules that pick at most one record per frame.
 *
 * Timestamps are integer microseconds since the epoch; IODs, boxes and
 * corner coordinates are reals, which the analyser only compares.
 */
module PlateRecords {
  import opened Wrappers
  import opened Chars
  import opened StableSort
  import opened PlateUtils

  const MIN_PLATE_W_IN_PX: real := 60.0
  const MIN_IOD: real := 0.15
  const UNKNOWN_VEHICLE_PREFIX: string := "[UNK"
  const UNKNOWN_VEHICLE_POSTFIX: string := "]"

  datatype Point = Point(x: real, y: real)

  /** The four corners OCR reports for a plate, counter-clockwise from the
      top-left one. */
  datatype PlateCorners = PlateCorners(topLeft: Point, topRight: Point, bottomRight: Point, bottomLeft: Point)
  {
    function AsList(): (r: seq<Point>)
      ensures |r| == 4 && r[0] == topLeft && r[1] == topRight
    {
      [topLeft, topRight, bottomRight, bottomLeft]
    }
  }

  /** An object detection's bounding box [x1, y1, x2, y2] in image pixels. */
  datatype BBox = BBox(x1: real, y1: real, x2: real, y2: real)

  datatype Detection = Detection(bbox: BBox, kind: string)

  /** The object detector's metadata of a frame: parallel lists of
      detections, their intersection-over-detection with the region, and
      their tracker ids, plus the region's offset and width in the image. */
  datatype ObjectMetadata = ObjectMetadata(
    detections: seq<Detection>,
    iods: seq<real>,
    trackIds: seq<int>,
    roiOffset: Point,
    roiWidth: real)

  /** One OCR reading of a plate. */
  datatype AlprResult = AlprResult(plate: string, confidence: real, coordinates: PlateCorners)

  datatype Frame = Frame(timestamp: int, results: seq<AlprResult>, metadata: ObjectMetadata)

  /** A detected plate: its text (a valid plate or an `[UNK_<LABEL>_<id>]`
      name), OCR confidence, the frame's time, the region, and the tracked
      vehicle's id and kind. */
  datatype PlateRecord = PlateRecord(
    text: string,
    confidence: real,
    timestamp: int,
    roiId: int,
    trackId: int,
    kind: string)

  /** A slot of the analyser's ring buffer: the empty dictionaries it is
      filled with at start, or a plate record. */
  datatype Slot = Empty | Filled(rec: PlateRecord)

  // ---------------------------------------------------------------------
  // Predicates on a single OCR result and detection
  // ---------------------------------------------------------------------

  /** _plate_det_wide_enough: the top edge is wider than 60 pixels. */
  predicate PlateDetWideEnough(r: AlprResult) {
    r.coordinates.topRight.x - r.coordinates.topLeft.x > MIN_PLATE_W_IN_PX
  }

  /** A corner strictly inside a box shifted by minus the region's offset. */
  predicate StrictlyInside(p: Point, b: BBox, offset: Point) {
    && b.x1 - offset.x < p.x < b.x2 - offset.x
    && b.y1 - offset.y < p.y < b.y2 - offset.y
  }

  /** _plate_inside_det: some corner of the plate lies inside the detection. */
  predicate PlateInsideDet(corners: PlateCorners, d: Detection, offset: Point) {
    exists i :: 0 <= i < 4 && StrictlyInside(corners.AsList()[i], d.bbox, offset)
  }

  // ---------------------------------------------------------------------
  // _match_det_track_and_label
  // ---------------------------------------------------------------------

  /** How many triples `zip(detections, iods, track_ids)` yields. */
  function ZipLength(m: ObjectMetadata): (n: nat)
    ensures n <= |m.detections| && n <= |m.iods| && n <= |m.trackIds|
    ensures n == |m.detections| || n == |m.iods| || n == |m.trackIds|
  {
    var a := if |m.detections| < |m.iods| then |m.detections| else |m.iods|;
    if a < |m.trackIds| then a else |m.trackIds|
  }

  /** The i-th zipped detection contains the plate and overlaps the region enough. */
  predicate DetMatches(m: ObjectMetadata, corners: PlateCorners, i: nat)
    requires i < ZipLength(m)
  {
    PlateInsideDet(corners, m.detections[i], m.roiOffset) && m.iods[i] > MIN_IOD
  }

  /** The first matching zipped detection at or after i. */
  function FirstDetMatch(m: ObjectMetadata, corners: PlateCorners, i: nat): (r: Option<nat>)
    requires i <= ZipLength(m)
    ensures r.Some? ==> i <= r.value < ZipLength(m) && DetMatches(m, corners, r.value)
    ensures forall j :: i <= j < ZipLength(m) && (r.None? || j < r.value) ==> !DetMatches(m, corners, j)
    decreases ZipLength(m) - i
  {
    if i == ZipLength(m) then None
    else if DetMatches(m, corners, i) then Some(i)
    else FirstDetMatch(m, corners, i + 1)
  }

  /** What _match_det_track_and_label returns.  The loop variable `track_id`
      shadows the default -1, so without a match the kind is empty but the
      id is the last zipped one (-1 only when nothing is zipped). */
  function DetTrackAndLabel(m: ObjectMetadata, corners: PlateCorners): (int, string) {
    match FirstDetMatch(m, corners, 0)
    case Some(i) => (m.trackIds[i], m.detections[i].kind)
    case None => (if ZipLength(m) > 0 then m.trackIds[ZipLength(m) - 1] else -1, "")
  }

  /** _match_det_track_and_label, with its loop. */
  method MatchDetTrackAndLabel(m: ObjectMetadata, corners: PlateCorners) returns (trackId: int, kind: string)
    ensures (trackId, kind) == DetTrackAndLabel(m, corners)
  {
    trackId := -1;
    kind := "";
    var n := ZipLength(m);
    for i := 0 to n
      invariant FirstDetMatch(m, corners, i) == FirstDetMatch(m, corners, 0)
      invariant trackId == if i == 0 then -1 else m.trackIds[i - 1]
      invariant kind == ""
    {
      trackId := m.trackIds[i];
      if PlateInsideDet(corners, m.detections[i], m.roiOffset) && m.iods[i] > MIN_IOD {
        kind := m.detections[i].kind;
        return;
      }
    }
  }

  /** The first detection containing the plate with IOD above 0.15 gives the
      id and kind; with none, the kind is empty and the id is the last
      zipped one, or -1 when there is nothing to zip. */
  lemma DetTrackAndLabelCases(m: ObjectMetadata, corners: PlateCorners)
    ensures forall i :: (0 <= i < ZipLength(m) && DetMatches(m, corners, i)
      && forall j :: 0 <= j < i ==> !DetMatches(m, corners, j)) ==>
      DetTrackAndLabel(m, corners) == (m.trackIds[i], m.detections[i].kind)
    ensures (forall i :: 0 <= i < ZipLength(m) ==> !DetMatches(m, corners, i)) ==>
      DetTrackAndLabel(m, corners) ==
        (if ZipLength(m) > 0 then m.trackIds[ZipLength(m) - 1] else -1, "")
  {
  }

  // ---------------------------------------------------------------------
  // _match_unk_track_and_label
  // ---------------------------------------------------------------------

  /** numpy.argmax: the first index of a largest element. */
  function ArgMax(s: seq<real>): (r: nat)
    requires |s| > 0
    ensures r < |s|
    ensures forall j :: 0 <= j < |s| ==> s[j] <= s[r]
    ensures forall j :: 0 <= j < r ==> s[j] < s[r]
  {
    if |s| == 1 then 0
    else
      var k := ArgMax(s[..|s| - 1]);
      if s[|s| - 1] > s[k] then |s| - 1 else k
  }

  /** What _match_unk_track_and_label returns: the detection of highest IOD
      if its IOD exceeds 0.15 and its box is wider than a quarter of the
      region.  An index past the end of the detections or track ids raises
      an IndexError there, which the method catches and answers (-1, ""). */
  function UnkTrackAndLabel(m: ObjectMetadata): (r: (int, string))
    ensures r.0 >= 0 ==> |m.iods| > 0 && m.iods[ArgMax(m.iods)] > MIN_IOD
    ensures r.0 < 0 ==> r.1 == "" || (0 < |m.iods| && ArgMax(m.iods) < |m.trackIds|)
  {
    if m.iods == [] then (-1, "")
    else
      var i := ArgMax(m.iods);
      if i >= |m.detections| then (-1, "")
      else
        var b := m.detections[i].bbox;
        if m.iods[i] > MIN_IOD && b.x2 - b.x1 > 0.25 * m.roiWidth then
          if i < |m.trackIds| then (m.trackIds[i], m.detections[i].kind) else (-1, "")
        else (-1, "")
  }

  /** Detection i is the unknown vehicle's match: it has the first largest
      IOD, that IOD exceeds 0.15, its box is wider than a quarter of the
      region, and it has a detection and a track id. */
  predicate UnkMatched(m: ObjectMetadata, i: int) {
    && 0 <= i < |m.iods| && i < |m.detections| && i < |m.trackIds|
    && (forall j :: 0 <= j < |m.iods| ==> m.iods[j] <= m.iods[i])
    && (forall j :: 0 <= j < i ==> m.iods[j] < m.iods[i])
    && m.iods[i] > MIN_IOD
    && m.detections[i].bbox.x2 - m.detections[i].bbox.x1 > 0.25 * m.roiWidth
  }

  /** _match_unk_track_and_label answers the matched detection's track id
      and label, and (-1, "") when no detection matches. */
  lemma UnkTrackAndLabelRule(m: ObjectMetadata)
    ensures forall i :: UnkMatched(m, i) ==> UnkTrackAndLabel(m) == (m.trackIds[i], m.detections[i].kind)
    ensures (forall i :: !UnkMatched(m, i)) ==> UnkTrackAndLabel(m) == (-1, "")
  {
    if m.iods != [] {
      var k := ArgMax(m.iods);
      assert forall i :: UnkMatched(m, i) ==> i == k;
    }
  }

  /** With no detection overlapping the region by more than 0.15, no
      unknown vehicle is matched. */
  lemma LowIodMatchesNothing(m: ObjectMetadata)
    requires forall j :: 0 <= j < |m.iods| ==> m.iods[j] <= MIN_IOD
    ensures UnkTrackAndLabel(m) == (-1, "")
  {
  }

  /** The name of a vehicle whose plate was not read:
      `[UNK_` + upper-cased label + `_` + id + `]`. */
  function UnknownLabel(kind: string, trackId: int): (r: string)
    ensures StartsWith(r, UNKNOWN_VEHICLE_PREFIX)
    ensures EndsWith(r, "_" + IntToString(trackId) + UNKNOWN_VEHICLE_POSTFIX)
    ensures |r| > 0 && r[0] == '['
  {
    var suffix := "_" + IntToString(trackId) + "]";
    var r := "[UNK_" + Upper(kind) + suffix;
    assert r[..4] == "[UNK";
    assert r[|r| - |suffix|..] == suffix;
    r
  }

  // ---------------------------------------------------------------------
  // Block queries
  // ---------------------------------------------------------------------

  /** _det_track_in_block: a record with a read plate carries this track id. */
  predicate DetTrackInBlock(trackId: int, block: seq<Slot>) {
    exists i :: 0 <= i < |block| && block[i].Filled?
      && !StartsWith(block[i].rec.text, UNKNOWN_VEHICLE_PREFIX)
      && block[i].rec.trackId == trackId
  }

  /** _unk_in_block_w_diff_lbl: a record named after this track id has a
      different text, that is, the vehicle was seen with another kind. */
  predicate UnkInBlockWithDiffLabel(text: string, trackId: int, block: seq<Slot>) {
    exists i :: 0 <= i < |block| && block[i].Filled?
      && EndsWith(block[i].rec.text, "_" + IntToString(trackId) + UNKNOWN_VEHICLE_POSTFIX)
      && block[i].rec.text != text
  }

  // ---------------------------------------------------------------------
  // _first_valid_plate
  // ---------------------------------------------------------------------

  /** The OCR result is wide enough and holds a valid plate. */
  predicate Usable(r: AlprResult) {
    PlateDetWideEnough(r) && ValidPlates(r.plate) != []
  }

  /** The record the OCR results from index i on yield: the longest valid
      plate of the first usable one. */
  function PlateFromResults(f: Frame, roiId: int, i: nat): Option<PlateRecord>
    requires i <= |f.results|
    decreases |f.results| - i
  {
    if i == |f.results| then None
    else
      var r := f.results[i];
      if !PlateDetWideEnough(r) then PlateFromResults(f, roiId, i + 1)
      else
        var plates := SortDesc(ValidPlates(r.plate), Length);
        var (trackId, kind) := DetTrackAndLabel(f.metadata, r.coordinates);
        if plates != [] then Some(PlateRecord(plates[0], r.confidence, f.timestamp, roiId, trackId, kind))
        else PlateFromResults(f, roiId, i + 1)
  }

  /** The record of an unknown vehicle: the best detection, unless it is
      already in the block with a read plate or under another kind. */
  function UnknownVehicle(f: Frame, roiId: int, block: seq<Slot>): Option<PlateRecord> {
    var (trackId, kind) := UnkTrackAndLabel(f.metadata);
    var unk := UnknownLabel(kind, trackId);
    if trackId >= 0 && !DetTrackInBlock(trackId, block) && !UnkInBlockWithDiffLabel(unk, trackId, block)
    then Some(PlateRecord(unk, 0.0, f.timestamp, roiId, trackId, kind))
    else None
  }

  /** What _first_valid_plate returns for a frame, given the block. */
  function FrameRecord(f: Frame, roiId: int, block: seq<Slot>): Option<PlateRecord> {
    match PlateFromResults(f, roiId, 0)
    case Some(r) => Some(r)
    case None => UnknownVehicle(f, roiId, block)
  }

  /** _first_valid_plate, with its loop over the OCR results. */
  method FirstValidPlate(f: Frame, roiId: int, block: seq<Slot>) returns (plate: Option<PlateRecord>)
    ensures plate == FrameRecord(f, roiId, block)
  {
    for i := 0 to |f.results|
      invariant PlateFromResults(f, roiId, i) == PlateFromResults(f, roiId, 0)
    {
      var r := f.results[i];
      if !PlateDetWideEnough(r) {
        continue;
      }
      var validPlates := GetValidPlates(r.plate);
      validPlates := SortDesc(validPlates, Length);
      var trackId, kind := MatchDetTrackAndLabel(f.metadata, r.coordinates);
      if validPlates != [] {
        return Some(PlateRecord(validPlates[0], r.confidence, f.timestamp, roiId, trackId, kind));
      }
    }
    var (trackId, kind) := UnkTrackAndLabel(f.metadata);
    var unk := UnknownLabel(kind, trackId);
    if trackId >= 0 && !DetTrackInBlock(trackId, block) && !UnkInBlockWithDiffLabel(unk, trackId, block) {
      return Some(PlateRecord(unk, 0.0, f.timestamp, roiId, trackId, kind));
    }
    return None;
  }

  /** The record's text is a longest valid plate of the k-th OCR result,
      and the rest of it comes from that result, the frame and the region. */
  predicate RecordOfResult(r: PlateRecord, f: Frame, roiId: int, k: nat)
    requires k < |f.results|
  {
    && r.text in ValidPlates(f.results[k].plate)
    && (forall q :: q in ValidPlates(f.results[k].plate) ==> |q| <= |r.text|)
    && r.confidence == f.results[k].confidence
    && r.timestamp == f.timestamp && r.roiId == roiId
    && (r.trackId, r.kind) == DetTrackAndLabel(f.metadata, f.results[k].coordinates)
  }

  /** k is the first usable OCR result from index i on. */
  predicate FirstUsableFrom(f: Frame, i: nat, k: nat) {
    i <= k < |f.results| && Usable(f.results[k]) && forall j :: i <= j < k ==> !Usable(f.results[j])
  }

  /** The first of the plates sorted longest first is a longest one. */
  lemma SortedHeadIsLongest(plate: string)
    requires ValidPlates(plate) != []
    ensures SortDesc(ValidPlates(plate), Length)[0] in ValidPlates(plate)
    ensures forall q :: q in ValidPlates(plate) ==> |q| <= |SortDesc(ValidPlates(plate), Length)[0]|
  {
    var vp := ValidPlates(plate);
    ValidPlatesDistinctSorted(plate);
    SortDescOfSorted(vp, Length);
    forall q | q in vp ensures |q| <= |vp[0]| {
      var j :| 0 <= j < |vp| && vp[j] == q;
      if j > 0 {
        assert Length(vp[0]) >= Length(vp[j]);
      }
    }
  }

  /** One result: a usable one yields its longest valid plate, an unusable
      one passes on to the next result. */
  lemma PlateFromResultsStep(f: Frame, roiId: int, i: nat)
    requires i < |f.results|
    ensures !Usable(f.results[i]) ==> PlateFromResults(f, roiId, i) == PlateFromResults(f, roiId, i + 1)
    ensures Usable(f.results[i]) ==>
      PlateFromResults(f, roiId, i).Some? && RecordOfResult(PlateFromResults(f, roiId, i).value, f, roiId, i)
  {
    if Usable(f.results[i]) {
      SortedHeadIsLongest(f.results[i].plate);
    }
  }

  /** A plate is read from index i on iff some result from there is usable. */
  lemma {:induction false} PlateFromResultsReadIff(f: Frame, roiId: int, i: nat)
    requires i <= |f.results|
    ensures PlateFromResults(f, roiId, i).Some? <==> exists k :: i <= k < |f.results| && Usable(f.results[k])
    decreases |f.results| - i
  {
    if i < |f.results| {
      PlateFromResultsStep(f, roiId, i);
      if !Usable(f.results[i]) {
        PlateFromResultsReadIff(f, roiId, i + 1);
        assert (exists k :: i <= k < |f.results| && Usable(f.results[k]))
          <==> (exists k :: i + 1 <= k < |f.results| && Usable(f.results[k]));
      }
    }
  }

  /** A plate read from index i on comes from the first usable result k. */
  lemma {:induction false} PlateFromResultsSource(f: Frame, roiId: int, i: nat) returns (k: nat)
    requires i <= |f.results| && PlateFromResults(f, roiId, i).Some?
    ensures FirstUsableFrom(f, i, k) && RecordOfResult(PlateFromResults(f, roiId, i).value, f, roiId, k)
    decreases |f.results| - i
  {
    PlateFromResultsStep(f, roiId, i);
    if Usable(f.results[i]) {
      k := i;
    } else {
      k := PlateFromResultsSource(f, roiId, i + 1);
    }
  }

  /** A frame yields a read plate iff some OCR result is usable; the plate
      then comes from the first usable result, is one of its longest valid
      plates, and carries the frame's time and region and the matched
      detection's id and label. */
  lemma PlateFromResultsIsFirstUsable(f: Frame, roiId: int, i: nat)
    requires i <= |f.results|
    ensures PlateFromResults(f, roiId, i).Some? <==> exists k :: i <= k < |f.results| && Usable(f.results[k])
    ensures PlateFromResults(f, roiId, i).Some? ==>
      exists k :: FirstUsableFrom(f, i, k) && RecordOfResult(PlateFromResults(f, roiId, i).value, f, roiId, k)
  {
    PlateFromResultsReadIff(f, roiId, i);
    if PlateFromResults(f, roiId, i).Some? {
      var k := PlateFromResultsSource(f, roiId, i);
    }
  }

  /** An unknown vehicle is recorded iff its track id is non-negative, no
      record with a read plate has the id, and no record of the id has a
      different name; it is named `[UNK_<LABEL>_<id>]`. */
  lemma UnknownVehicleRule(f: Frame, roiId: int, block: seq<Slot>)
    ensures var (trackId, kind) := UnkTrackAndLabel(f.metadata);
      UnknownVehicle(f, roiId, block).Some? <==>
        trackId >= 0 && !DetTrackInBlock(trackId, block)
        && !UnkInBlockWithDiffLabel(UnknownLabel(kind, trackId), trackId, block)
    ensures UnknownVehicle(f, roiId, block).Some? ==>
      var r := UnknownVehicle(f, roiId, block).value;
      && r.text == UnknownLabel(r.kind, r.trackId)
      && StartsWith(r.text, UNKNOWN_VEHICLE_PREFIX)
      && r.trackId >= 0 && r.timestamp == f.timestamp && r.roiId == roiId
      && f.metadata.iods[ArgMax(f.metadata.iods)] > MIN_IOD
    ensures var m := f.metadata;
      UnknownVehicle(f, roiId, block).Some? <==>
        |m.iods| > 0 && UnkMatched(m, ArgMax(m.iods)) && m.trackIds[ArgMax(m.iods)] >= 0
        && !DetTrackInBlock(m.trackIds[ArgMax(m.iods)], block)
        && !UnkInBlockWithDiffLabel(UnknownLabel(m.detections[ArgMax(m.iods)].kind, m.trackIds[ArgMax(m.iods)]),
                                    m.trackIds[ArgMax(m.iods)], block)
    ensures var m := f.metadata;
      UnknownVehicle(f, roiId, block).Some? ==>
        var i := ArgMax(m.iods);
        UnkMatched(m, i) && UnknownVehicle(f, roiId, block).value.trackId == m.trackIds[i]
        && UnknownVehicle(f, roiId, block).value.kind == m.detections[i].kind
  {
    UnkTrackAndLabelRule(f.metadata);
  }

  /** A read plate matches the plate grammar as a whole. */
  lemma {:induction false} PlateFromResultsShape(f: Frame, roiId: int, i: nat)
    requires i <= |f.results|
    ensures PlateFromResults(f, roiId, i).Some? ==> MatchesPlateGrammar(PlateFromResults(f, roiId, i).value.text)
    decreases |f.results| - i
  {
    if i < |f.results| {
      var r := f.results[i];
      if Usable(r) {
        SortedHeadIsLongest(r.plate);
        ValidPlatesShape(r.plate);
      } else {
        PlateFromResultsShape(f, roiId, i + 1);
      }
    }
  }

  /** Every record a frame yields has a non-empty text. */
  lemma FrameRecordHasText(f: Frame, roiId: int, block: seq<Slot>)
    ensures FrameRecord(f, roiId, block).Some? ==> |FrameRecord(f, roiId, block).value.text| > 0
  {
    PlateFromResultsShape(f, roiId, 0);
  }
}
