/**
 * The frame loop of ROIPlateAnalyser (components/reader/code/roi_plate_analyser.py):
 * the ring buffer of per-frame records, the detection history keyed by
 * plate text, the periodic scan of the recent window and the rules that
 * decide what is reported.
 *
 * Timestamps are integer microseconds; the source compares differences of
 * datetimes in float seconds.  That agrees with these integer comparisons
 * up to the rounding of the float window bound `start + 5`.
 */
module RoiPlateAnalyser {
  import opened Wrappers
  import opened PlateUtils
  import opened PlateRecords
  import opened PlateClustering

  const BLOCK_SIZE: nat := 150
  const BLOCK_SCAN_PERIOD_IN_US: int := 5_000_000
  const BLOCK_SCAN_PERIOD_EXTRA_BUFFER_IN_US: int := 5_000_000
  const REDETECTION_DELAY_IN_US: int := 60_000_000

  // ---------------------------------------------------------------------
  // The ring buffer (lines 37, 72-73)
  // ---------------------------------------------------------------------

  /** The buffer as created: BLOCK_SIZE empty records. */
  function EmptyBlock(): (r: seq<Slot>)
    ensures |r| == BLOCK_SIZE && forall i :: 0 <= i < |r| ==> r[i] == Empty
  {
    seq(BLOCK_SIZE, _ => Empty)
  }

  /** `deque.append` on a deque bounded to BLOCK_SIZE: the newest BLOCK_SIZE
      elements of the block followed by s. */
  function Push(block: seq<Slot>, s: Slot): (r: seq<Slot>)
    ensures |block| < BLOCK_SIZE ==> r == block + [s]
    ensures |block| >= BLOCK_SIZE ==> |r| == BLOCK_SIZE && r == (block + [s])[|block| + 1 - BLOCK_SIZE..]
  {
    if |block| < BLOCK_SIZE then block + [s] else block[|block| + 1 - BLOCK_SIZE..] + [s]
  }

  /** A full buffer stays full: the oldest record leaves, the others keep their order. */
  lemma PushFull(block: seq<Slot>, s: Slot)
    requires |block| == BLOCK_SIZE
    ensures Push(block, s) == block[1..] + [s]
    ensures |Push(block, s)| == BLOCK_SIZE
  {
  }

  /** A slot's timestamp; an empty record reads as the epoch. */
  function SlotTimestamp(s: Slot): int {
    if s.Filled? then s.rec.timestamp else 0
  }

  /** _plates_from_last_n_secs: the records at most span old at cur, in order. */
  function PlatesFromLastNSecs(block: seq<Slot>, cur: int, span: int): (r: seq<Slot>)
    ensures forall s :: s in r <==> s in block && cur - SlotTimestamp(s) <= span
    ensures forall s :: multiset(r)[s] == if cur - SlotTimestamp(s) <= span then multiset(block)[s] else 0
  {
    Filter(block, (s: Slot) => cur - SlotTimestamp(s) <= span)
  }

  function Reverse<T>(s: seq<T>): (r: seq<T>)
    ensures |r| == |s| && forall i :: 0 <= i < |s| ==> r[i] == s[|s| - 1 - i]
  {
    if s == [] then [] else [s[|s| - 1]] + Reverse(s[..|s| - 1])
  }

  // ---------------------------------------------------------------------
  // The detection history (lines 95-111, 245-250)
  // ---------------------------------------------------------------------

  /** The history dictionary: its keys in insertion order and its entries. */
  datatype History = History(keys: seq<string>, entries: map<string, Counted>)

  /** The key order lists each key of the dictionary once. */
  predicate HistoryFits(h: History) {
    Distinct(h.keys) && (set t | t in h.keys) == h.entries.Keys
  }

  /** An entry is kept while it is at most the redetection delay old. */
  predicate Recent(h: History, cur: int, t: string) {
    t in h.entries && cur - h.entries[t].rec.timestamp <= REDETECTION_DELAY_IN_US
  }

  /** _groom_det_history with the redetection delay. */
  function Groom(h: History, cur: int): (r: History)
    ensures forall t :: t in r.entries <==> Recent(h, cur, t)
    ensures forall t :: t in r.entries ==> t in h.entries && r.entries[t] == h.entries[t]
  {
    History(Filter(h.keys, (t: string) => Recent(h, cur, t)),
            map t | t in h.entries && Recent(h, cur, t) :: h.entries[t])
  }

  /** One result met by the history: a new text is inserted and reported;
      a known text is replaced when the result is strictly later. */
  function RecordResult(h: History, rep: Counted): (History, seq<Counted>) {
    var t := rep.rec.text;
    if t !in h.entries then (History(h.keys + [t], h.entries[t := rep]), [rep])
    else if rep.rec.timestamp - h.entries[t].rec.timestamp > 0 then (History(h.keys, h.entries[t := rep]), [])
    else (h, [])
  }

  /** The loop over the results of a scan. */
  function RecordResults(h: History, results: seq<Counted>): (History, seq<Counted>) {
    if results == [] then (h, [])
    else
      var (h1, rep1) := RecordResults(h, results[..|results| - 1]);
      var (h2, rep2) := RecordResult(h1, results[|results| - 1]);
      (h2, rep1 + rep2)
  }

  // ---------------------------------------------------------------------
  // The frame loop (lines 52-111)
  // ---------------------------------------------------------------------

  /** The state the frame loop carries. */
  datatype Scan = Scan(block: seq<Slot>, history: History, start: int, reported: seq<Counted>)

  /** The scan of the window: cluster the records of the last span
      microseconds, newest first, against the known texts, record the
      results, then groom the history. */
  function ScanWindow(block: seq<Slot>, h: History, cur: int, span: int): (History, seq<Counted>) {
    var window := PlatesFromLastNSecs(block, cur, span);
    var results := ClusterBlockPlates(Reverse(window), h.keys);
    var (h1, reported) := RecordResults(h, results);
    (Groom(h1, cur), reported)
  }

  /** The buffer after a frame: the frame's record, if any, is pushed. */
  function Received(block: seq<Slot>, roiId: int, f: Frame): seq<Slot> {
    match FrameRecord(f, roiId, block)
    case Some(rec) => Push(block, Filled(rec))
    case None => block
  }

  /** A scan is due at least five seconds after the scan start, and at the last frame. */
  predicate ScanDue(st: Scan, f: Frame, isLast: bool) {
    f.timestamp - st.start >= BLOCK_SCAN_PERIOD_IN_US || isLast
  }

  /** The window spans the time since the scan start and five seconds more. */
  function ScanSpan(st: Scan, f: Frame): int {
    f.timestamp - st.start + BLOCK_SCAN_PERIOD_EXTRA_BUFFER_IN_US
  }

  /** One frame: its record, if any, enters the buffer; when a scan is
      due, the window is scanned and the scan period restarts. */
  function FrameStep(st: Scan, roiId: int, f: Frame, isLast: bool): Scan {
    var block := Received(st.block, roiId, f);
    if ScanDue(st, f, isLast) then
      var scanned := ScanWindow(block, st.history, f.timestamp, ScanSpan(st, f));
      Scan(block, scanned.0, f.timestamp, st.reported + scanned.1)
    else Scan(block, st.history, st.start, st.reported)
  }

  /** A frame on which a scan is due. */
  lemma FrameStepScans(st: Scan, roiId: int, f: Frame, isLast: bool)
    requires ScanDue(st, f, isLast)
    ensures var block := Received(st.block, roiId, f);
      var scanned := ScanWindow(block, st.history, f.timestamp, ScanSpan(st, f));
      FrameStep(st, roiId, f, isLast) == Scan(block, scanned.0, f.timestamp, st.reported + scanned.1)
  {
  }

  /** A frame on which no scan is due. */
  lemma FrameStepWaits(st: Scan, roiId: int, f: Frame, isLast: bool)
    requires !ScanDue(st, f, isLast)
    ensures FrameStep(st, roiId, f, isLast) == Scan(Received(st.block, roiId, f), st.history, st.start, st.reported)
  {
  }

  /** The first k frames of roi. */
  function Run(init: Scan, roiId: int, roi: seq<Frame>, k: nat): Scan
    requires k <= |roi|
  {
    if k == 0 then init else FrameStep(Run(init, roiId, roi, k - 1), roiId, roi[k - 1], k == |roi|)
  }

  /** analyse_plates from a buffer and a history: the final buffer and
      history, and the records reported. */
  function Analysis(block: seq<Slot>, h: History, roiId: int, roi: seq<Frame>): Scan {
    if roi == [] then Scan(block, h, 0, [])
    else Run(Scan(block, h, roi[0].timestamp, []), roiId, roi, |roi|)
  }

  // ---------------------------------------------------------------------
  // What the history guarantees
  // ---------------------------------------------------------------------

  lemma {:induction false} FilterDistinct<T(!new)>(s: seq<T>, p: T -> bool)
    requires Distinct(s)
    ensures Distinct(Filter(s, p))
  {
    if s != [] {
      var init := s[..|s| - 1];
      FilterDistinct(init, p);
      assert s[|s| - 1] !in init;
    }
  }

  /** Grooming keeps the key order of the entries it keeps. */
  lemma GroomFits(h: History, cur: int)
    requires HistoryFits(h)
    ensures HistoryFits(Groom(h, cur))
  {
    FilterDistinct(h.keys, (t: string) => Recent(h, cur, t));
  }

  /** What recording results into h, giving h1 and reported, guarantees:
      a result is reported exactly when its text was not in the history,
      and then once; reported texts are appended to the key order; every
      result's text ends up in the history; an existing entry changes only
      to a strictly later one. */
  ghost predicate Recorded(h: History, results: seq<Counted>, h1: History, reported: seq<Counted>) {
    && HistoryFits(h1)
    && h1.keys == h.keys + ReportedTexts(reported)
    && (forall t :: t in ReportedTexts(reported) <==> t in ReportedTexts(results) && t !in h.entries)
    && Distinct(ReportedTexts(reported))
    && (forall r :: r in reported ==> r in results)
    && (forall t :: t in h1.entries <==> t in h.entries || t in ReportedTexts(results))
    && (forall t :: t in h.entries ==>
          h1.entries[t] == h.entries[t] || h1.entries[t].rec.timestamp > h.entries[t].rec.timestamp)
  }

  lemma RecordResultSpec(h: History, rep: Counted)
    requires HistoryFits(h)
    ensures Recorded(h, [rep], RecordResult(h, rep).0, RecordResult(h, rep).1)
  {
    var t := rep.rec.text;
    assert ReportedTexts([rep]) == [t];
    if t !in h.entries {
      var h1 := RecordResult(h, rep).0;
      assert (set u | u in h1.keys) == (set u | u in h.keys) + {t};
    }
  }

  /** Texts appended to a duplicate-free key order are themselves distinct. */
  lemma AppendedDistinct(keys: seq<string>, base: seq<string>, added: seq<string>)
    requires Distinct(keys) && keys == base + added
    ensures Distinct(added)
  {
    forall i, j | 0 <= i < j < |added| ensures added[i] != added[j] {
      assert added[i] == keys[|base| + i] && added[j] == keys[|base| + j];
    }
  }

  /** Two recordings in a row report a text iff it is a result text that
      was not in the first history. */
  lemma ComposeReported(e: set<string>, e1: set<string>, rs1: seq<string>, rep1: seq<string>,
                        rs2: seq<string>, rep2: seq<string>)
    requires forall t :: t in rep1 <==> t in rs1 && t !in e
    requires forall t :: t in e1 <==> t in e || t in rs1
    requires forall t :: t in rep2 <==> t in rs2 && t !in e1
    ensures forall t :: t in rep1 + rep2 <==> t in rs1 + rs2 && t !in e
  {
  }

  lemma RecordedCompose(h: History, rs1: seq<Counted>, h1: History, rep1: seq<Counted>,
                        rs2: seq<Counted>, h2: History, rep2: seq<Counted>)
    requires HistoryFits(h) && Recorded(h, rs1, h1, rep1) && Recorded(h1, rs2, h2, rep2)
    ensures Recorded(h, rs1 + rs2, h2, rep1 + rep2)
  {
    ReportedTextsAppend(rs1, rs2);
    ReportedTextsAppend(rep1, rep2);
    assert h2.keys == h.keys + ReportedTexts(rep1 + rep2);
    AppendedDistinct(h2.keys, h.keys, ReportedTexts(rep1 + rep2));
    ComposeReported(h.entries.Keys, h1.entries.Keys, ReportedTexts(rs1), ReportedTexts(rep1),
                    ReportedTexts(rs2), ReportedTexts(rep2));
  }

  /** The recording loop over the results of a scan. */
  lemma {:induction false} RecordResultsSpec(h: History, results: seq<Counted>)
    requires HistoryFits(h)
    ensures Recorded(h, results, RecordResults(h, results).0, RecordResults(h, results).1)
  {
    if results == [] {
      assert ReportedTexts([]) == [];
    } else {
      var init := results[..|results| - 1];
      var last := results[|results| - 1];
      RecordResultsSpec(h, init);
      var (h1, rep1) := RecordResults(h, init);
      RecordResultSpec(h1, last);
      RecordedCompose(h, init, h1, rep1, [last], RecordResult(h1, last).0, RecordResult(h1, last).1);
      assert init + [last] == results;
    }
  }

  // ---------------------------------------------------------------------
  // The state stays consistent
  // ---------------------------------------------------------------------

  /** A full buffer whose records have texts, and a history whose key
      order fits its entries and whose texts are non-empty. */
  predicate Consistent(block: seq<Slot>, h: History) {
    |block| == BLOCK_SIZE && TextsPresent(block) && HistoryFits(h) && NonEmptyTexts(h.keys)
  }

  /** The window of a buffer, newest first, holds only its records. */
  lemma WindowTextsPresent(block: seq<Slot>, cur: int, span: int)
    requires TextsPresent(block)
    ensures TextsPresent(Reverse(PlatesFromLastNSecs(block, cur, span)))
  {
    var w := Reverse(PlatesFromLastNSecs(block, cur, span));
    forall i | 0 <= i < |w| && w[i].Filled? ensures |w[i].rec.text| > 0 {
      assert w[i] in PlatesFromLastNSecs(block, cur, span);
      var j :| 0 <= j < |block| && block[j] == w[i];
    }
  }

  /** Recording results with texts keeps the history's texts non-empty. */
  lemma RecordKeepsTexts(h: History, results: seq<Counted>)
    requires HistoryFits(h) && NonEmptyTexts(h.keys) && NonEmptyTexts(ReportedTexts(results))
    ensures HistoryFits(RecordResults(h, results).0) && NonEmptyTexts(RecordResults(h, results).0.keys)
  {
    RecordResultsSpec(h, results);
    var (h1, reported) := RecordResults(h, results);
    forall i | 0 <= i < |h1.keys| ensures |h1.keys[i]| > 0 {
      if i >= |h.keys| {
        var r := reported[i - |h.keys|];
        assert r in results;
        var j :| 0 <= j < |results| && results[j] == r;
        assert ReportedTexts(results)[j] == r.rec.text;
      }
    }
  }

  lemma GroomKeepsTexts(h: History, cur: int)
    requires HistoryFits(h) && NonEmptyTexts(h.keys)
    ensures HistoryFits(Groom(h, cur)) && NonEmptyTexts(Groom(h, cur).keys)
  {
    GroomFits(h, cur);
    var g := Groom(h, cur);
    forall i | 0 <= i < |g.keys| ensures |g.keys[i]| > 0 {
      assert g.keys[i] in h.keys;
    }
  }

  lemma ScanWindowConsistent(block: seq<Slot>, h: History, cur: int, span: int)
    requires Consistent(block, h)
    ensures Consistent(block, ScanWindow(block, h, cur, span).0)
  {
    var window := Reverse(PlatesFromLastNSecs(block, cur, span));
    var results := ClusterBlockPlates(window, h.keys);
    WindowTextsPresent(block, cur, span);
    ReportedTextsPresent(window, h.keys);
    RecordKeepsTexts(h, results);
    GroomKeepsTexts(RecordResults(h, results).0, cur);
    assert ScanWindow(block, h, cur, span).0 == Groom(RecordResults(h, results).0, cur);
  }

  /** Pushing a record with a text keeps the buffer full and its texts present. */
  lemma PushKeepsTexts(block: seq<Slot>, s: Slot)
    requires |block| == BLOCK_SIZE && TextsPresent(block) && (s.Filled? ==> |s.rec.text| > 0)
    ensures |Push(block, s)| == BLOCK_SIZE && TextsPresent(Push(block, s))
  {
    PushFull(block, s);
    var b := Push(block, s);
    forall i | 0 <= i < |b| && b[i].Filled? ensures |b[i].rec.text| > 0 {
      if i < |b| - 1 {
        assert b[i] == block[i + 1];
      }
    }
  }

  lemma ReceivedConsistent(block: seq<Slot>, h: History, roiId: int, f: Frame)
    requires Consistent(block, h)
    ensures Consistent(Received(block, roiId, f), h)
  {
    FrameRecordHasText(f, roiId, block);
    if FrameRecord(f, roiId, block).Some? {
      PushKeepsTexts(block, Filled(FrameRecord(f, roiId, block).value));
    }
  }

  lemma FrameStepConsistent(st: Scan, roiId: int, f: Frame, isLast: bool)
    requires Consistent(st.block, st.history)
    ensures Consistent(FrameStep(st, roiId, f, isLast).block, FrameStep(st, roiId, f, isLast).history)
  {
    var block := Received(st.block, roiId, f);
    ReceivedConsistent(st.block, st.history, roiId, f);
    if ScanDue(st, f, isLast) {
      ScanWindowConsistent(block, st.history, f.timestamp, ScanSpan(st, f));
    }
  }

  /** Every prefix of the frame loop keeps the state consistent. */
  lemma {:induction false} RunConsistent(init: Scan, roiId: int, roi: seq<Frame>, k: nat)
    requires k <= |roi| && Consistent(init.block, init.history)
    ensures Consistent(Run(init, roiId, roi, k).block, Run(init, roiId, roi, k).history)
  {
    if k > 0 {
      RunConsistent(init, roiId, roi, k - 1);
      FrameStepConsistent(Run(init, roiId, roi, k - 1), roiId, roi[k - 1], k == |roi|);
    }
  }

  // ---------------------------------------------------------------------
  // What the frame loop guarantees
  // ---------------------------------------------------------------------

  /** The buffer after a sequence of frames, each received in turn. */
  function Buffered(block: seq<Slot>, roiId: int, frames: seq<Frame>): seq<Slot> {
    if frames == [] then block
    else Received(Buffered(block, roiId, frames[..|frames| - 1]), roiId, frames[|frames| - 1])
  }

  /** Scanning never touches the buffer: after k frames it holds exactly
      what receiving those frames, one after another, puts there. */
  lemma {:induction false} RunBuffers(init: Scan, roiId: int, roi: seq<Frame>, k: nat)
    requires k <= |roi|
    ensures Run(init, roiId, roi, k).block == Buffered(init.block, roiId, roi[..k])
  {
    if k > 0 {
      RunBuffers(init, roiId, roi, k - 1);
      assert roi[..k][..k - 1] == roi[..k - 1];
    }
  }

  /** A scan reports a result exactly when its text was not in the
      history; the history is then groomed, so no entry is older than the
      redetection delay. */
  lemma ScanWindowReports(block: seq<Slot>, h: History, cur: int, span: int)
    requires HistoryFits(h)
    ensures var results := ClusterBlockPlates(Reverse(PlatesFromLastNSecs(block, cur, span)), h.keys);
      var (h1, reported) := ScanWindow(block, h, cur, span);
      && (forall t :: t in ReportedTexts(reported) <==> t in ReportedTexts(results) && t !in h.entries)
      && Distinct(ReportedTexts(reported))
      && (forall r :: r in reported ==> r in results)
      && (forall t :: t in h1.entries ==> cur - h1.entries[t].rec.timestamp <= REDETECTION_DELAY_IN_US)
  {
    var results := ClusterBlockPlates(Reverse(PlatesFromLastNSecs(block, cur, span)), h.keys);
    RecordResultsSpec(h, results);
  }

  /** A plate whose history entry is more than the redetection delay old
      at a scan is forgotten, so a later scan that finds it reports it
      again. */
  lemma ReportedAgainAfterDelay(h: History, cur: int, results: seq<Counted>, t: string)
    requires HistoryFits(h) && t in h.entries
    requires cur - h.entries[t].rec.timestamp > REDETECTION_DELAY_IN_US
    requires t in ReportedTexts(results)
    ensures t !in Groom(h, cur).entries
    ensures t in ReportedTexts(RecordResults(Groom(h, cur), results).1)
  {
    GroomFits(h, cur);
    RecordResultsSpec(Groom(h, cur), results);
  }

  /** The window of a buffer without records has no records either. */
  lemma EmptyWindow(block: seq<Slot>, cur: int, span: int)
    requires NoRecords(block)
    ensures NoRecords(Reverse(PlatesFromLastNSecs(block, cur, span)))
  {
    var w := Reverse(PlatesFromLastNSecs(block, cur, span));
    forall i | 0 <= i < |w| ensures w[i] == Empty {
      assert w[i] in PlatesFromLastNSecs(block, cur, span);
    }
  }

  /** A frame that yields no record leaves a buffer without records as
      it is, and scanning it reports nothing. */
  lemma FrameStepNothingObserved(st: Scan, roiId: int, f: Frame, isLast: bool)
    requires st.block == EmptyBlock() && FrameRecord(f, roiId, EmptyBlock()) == None
    ensures FrameStep(st, roiId, f, isLast).block == EmptyBlock()
    ensures FrameStep(st, roiId, f, isLast).reported == st.reported
  {
    if ScanDue(st, f, isLast) {
      EmptyWindow(EmptyBlock(), f.timestamp, ScanSpan(st, f));
      var w := Reverse(PlatesFromLastNSecs(EmptyBlock(), f.timestamp, ScanSpan(st, f)));
      NoRecordsNoReports(w, st.history.keys);
      assert RecordResults(st.history, []) == (st.history, []);
    }
  }

  /** Frames that yield no record report nothing, whatever the history. */
  lemma {:induction false} RunNothingObserved(init: Scan, roiId: int, roi: seq<Frame>, k: nat)
    requires k <= |roi| && init.block == EmptyBlock() && init.reported == []
    requires forall i :: 0 <= i < |roi| ==> FrameRecord(roi[i], roiId, EmptyBlock()) == None
    ensures Run(init, roiId, roi, k).block == EmptyBlock()
    ensures Run(init, roiId, roi, k).reported == []
  {
    if k > 0 {
      RunNothingObserved(init, roiId, roi, k - 1);
      FrameStepNothingObserved(Run(init, roiId, roi, k - 1), roiId, roi[k - 1], k == |roi|);
    }
  }

  /** A frame none of whose OCR results is usable and whose detections
      all overlap the region by at most 0.15 yields no record. */
  lemma LowIodFrameYieldsNothing(f: Frame, roiId: int, block: seq<Slot>)
    requires forall i :: 0 <= i < |f.results| ==> !Usable(f.results[i])
    requires forall j :: 0 <= j < |f.metadata.iods| ==> f.metadata.iods[j] <= MIN_IOD
    ensures FrameRecord(f, roiId, block) == None
  {
    PlateFromResultsIsFirstUsable(f, roiId, 0);
    LowIodMatchesNothing(f.metadata);
  }

  /** analyse_plates on a fresh analyser over such frames reports nothing. */
  lemma NothingObservedNothingReported(h: History, roiId: int, roi: seq<Frame>)
    requires forall i :: 0 <= i < |roi| ==> forall j :: 0 <= j < |roi[i].results| ==> !Usable(roi[i].results[j])
    requires forall i :: 0 <= i < |roi| ==> forall j :: 0 <= j < |roi[i].metadata.iods| ==> roi[i].metadata.iods[j] <= MIN_IOD
    ensures Analysis(EmptyBlock(), h, roiId, roi).reported == []
    ensures Analysis(EmptyBlock(), h, roiId, roi).block == EmptyBlock()
  {
    if roi != [] {
      forall i | 0 <= i < |roi| ensures FrameRecord(roi[i], roiId, EmptyBlock()) == None {
        LowIodFrameYieldsNothing(roi[i], roiId, EmptyBlock());
      }
      RunNothingObserved(Scan(EmptyBlock(), h, roi[0].timestamp, []), roiId, roi, |roi|);
    }
  }

  // ---------------------------------------------------------------------
  // The analyser object (lines 23-113)
  // ---------------------------------------------------------------------

  /** The ring buffer lives in a fixed array whose oldest slot is at
      head; the detection history is a field the frame loop reassigns. */
  class ROIPlateAnalyser {
    const roiId: int
    const slots: array<Slot>
    var head: nat
    var detectionHistory: History

    /** The buffer, oldest record first. */
    function Block(): seq<Slot>
      reads this, slots
      requires head <= slots.Length
    {
      slots[head..] + slots[..head]
    }

    predicate Valid()
      reads this, slots
    {
      && slots.Length == BLOCK_SIZE
      && head < BLOCK_SIZE
      && Consistent(Block(), detectionHistory)
    }

    /** A buffer of BLOCK_SIZE empty records and an empty history. */
    constructor (roiId: int)
      ensures Valid()
      ensures this.roiId == roiId
      ensures Block() == EmptyBlock() && detectionHistory == History([], map[])
    {
      this.roiId := roiId;
      slots := new Slot[BLOCK_SIZE](_ => Empty);
      head := 0;
      detectionHistory := History([], map[]);
      new;
      assert Block() == slots[..];
    }

    /** `self.block.append`: the oldest record is overwritten. */
    method Append(s: Slot)
      requires Valid() && (s.Filled? ==> |s.rec.text| > 0)
      modifies this, slots
      ensures Valid()
      ensures Block() == Push(old(Block()), s)
      ensures detectionHistory == old(detectionHistory)
    {
      ghost var before := Block();
      PushFull(before, s);
      PushKeepsTexts(before, s);
      slots[head] := s;
      head := if head + 1 == BLOCK_SIZE then 0 else head + 1;
      assert Block() == before[1..] + [s];
    }

    /** The loop over the results of a scan: new texts are inserted and
        reported, known ones replaced by strictly later results. */
    method Record(results: seq<Counted>) returns (reported: seq<Counted>)
      modifies this
      ensures head == old(head)
      ensures (detectionHistory, reported) == RecordResults(old(detectionHistory), results)
    {
      ghost var h0 := detectionHistory;
      reported := [];
      for i := 0 to |results|
        invariant head == old(head)
        invariant (detectionHistory, reported) == RecordResults(h0, results[..i])
      {
        assert results[..i + 1][..i] == results[..i];
        ghost var (h, r) := (detectionHistory, reported);
        var rep := results[i];
        var t := rep.rec.text;
        if t !in detectionHistory.entries {
          detectionHistory := History(detectionHistory.keys + [t], detectionHistory.entries[t := rep]);
          reported := reported + [rep];
        } else if rep.rec.timestamp - detectionHistory.entries[t].rec.timestamp > 0 {
          detectionHistory := History(detectionHistory.keys, detectionHistory.entries[t := rep]);
          assert reported == r + [];
        } else {
          assert reported == r + [];
        }
        assert (detectionHistory, reported) == (RecordResult(h, rep).0, r + RecordResult(h, rep).1);
      }
      assert results[..|results|] == results;
    }

    /** One scan of the window: cluster the recent records, newest first,
        record the results and groom the history. */
    method ScanBlock(cur: int, span: int) returns (reported: seq<Counted>)
      requires Valid()
      modifies this
      ensures Valid()
      ensures Block() == old(Block())
      ensures (detectionHistory, reported) == ScanWindow(Block(), old(detectionHistory), cur, span)
    {
      var blockRoi := PlatesFromLastNSecs(Block(), cur, span);
      WindowTextsPresent(Block(), cur, span);
      var results := ClusterPlates(Reverse(blockRoi), detectionHistory.keys);
      ScanWindowConsistent(Block(), detectionHistory, cur, span);
      reported := Record(results);
      detectionHistory := Groom(detectionHistory, cur);
    }

    /** One iteration of the frame loop: the frame's record, if any, enters
        the buffer, and a due scan runs and restarts the scan period. */
    method ProcessFrame(frame: Frame, isLast: bool, start: int, soFar: seq<Counted>)
      returns (start': int, reported: seq<Counted>)
      requires Valid()
      modifies this, slots
      ensures Valid()
      ensures Scan(Block(), detectionHistory, start', reported)
        == FrameStep(Scan(old(Block()), old(detectionHistory), start, soFar), roiId, frame, isLast)
    {
      ghost var st := Scan(Block(), detectionHistory, start, soFar);
      var detectedPlate := FirstValidPlate(frame, roiId, Block());
      FrameRecordHasText(frame, roiId, Block());
      if detectedPlate.Some? {
        Append(Filled(detectedPlate.value));
      }
      assert Block() == Received(st.block, roiId, frame);
      start', reported := start, soFar;
      if frame.timestamp - start >= BLOCK_SCAN_PERIOD_IN_US || isLast {
        var span := frame.timestamp - start + BLOCK_SCAN_PERIOD_EXTRA_BUFFER_IN_US;
        assert ScanDue(st, frame, isLast) && span == ScanSpan(st, frame);
        FrameStepScans(st, roiId, frame, isLast);
        start' := frame.timestamp;
        var scanned := ScanBlock(frame.timestamp, span);
        reported := soFar + scanned;
      } else {
        FrameStepWaits(st, roiId, frame, isLast);
      }
    }

    /** analyse_plates: the buffer, the history and the reported records
        are those of the frame loop. */
    method AnalysePlates(roi: seq<Frame>) returns (platesToReport: seq<Counted>)
      requires Valid()
      modifies this, slots
      ensures Valid()
      ensures var a := Analysis(old(Block()), old(detectionHistory), roiId, roi);
        Block() == a.block && detectionHistory == a.history && platesToReport == a.reported
    {
      platesToReport := [];
      if roi == [] {
        return;
      }
      var blockRoiStart := roi[0].timestamp;
      ghost var init := Scan(Block(), detectionHistory, blockRoiStart, []);
      for k := 0 to |roi|
        invariant Valid()
        invariant Run(init, roiId, roi, k) == Scan(Block(), detectionHistory, blockRoiStart, platesToReport)
      {
        blockRoiStart, platesToReport := ProcessFrame(roi[k], k == |roi| - 1, blockRoiStart, platesToReport);
      }
    }
  }
}
