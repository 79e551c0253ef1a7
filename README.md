# remppa: a verified model of the plate reader's core

remppa reads Finnish licence plates from camera streams and reports the
vehicles it has seen. This project models the logic parts of it in Dafny and
proves properties of that model:

- **Plate-text utilities** of the reader (`components/reader/code/utils/__init__.py`):
  - the OCR repair `get_alt_representation`;
  - the window search `get_valid_plates` against the plate regular expression,
    which is modelled as a leftmost-longest matcher for its grammar;
  - the masking `get_obfuscated_plate`;
  - the greedy longest-first deduplication `rm_duplicates_1edit_away`.

  Levenshtein distance is defined from scratch.
- **The region-of-interest plate analyser** `ROIPlateAnalyser`
  (`components/reader/code/roi_plate_analyser.py`):
  - a class with a 150-slot ring buffer held in an array with a head index,
    and a detection history;
  - the per-frame record extraction (a read plate, or an unknown vehicle
    `[UNK_<LABEL>_<id>]`);
  - the 5-second scan of the recent window;
  - the clustering of texts within one edit, the track and label votes, and
    the threshold of eight observations;
  - the reporting against the history and its 60-second grooming.
- **The capture processor** (`components/processor/code/processor/capture_processor.py`):
  - the 0/1 skip pattern of `_discard_n`;
  - the clamped skip rate and its cyclic use;
  - the greedy mapping of tracker rows to detections;
  - the bounded batch queue.
- **Small helpers:**
  - the emission aggregate of `Reporter.process_cache` (`components/database/code/report.py`);
  - the file-name sanitiser `safe_string` / `safe_name` (`components/cloud/code/utils/misc.py`);
  - the thumbnail and centre-crop geometry of the camera controller
    (`components/processor/code/controller/controller.py`).

Modules:

| file | module | what it holds |
|---|---|---|
| wrappers.dfy | Wrappers | `Option` |
| chars.dfy | Chars | character classes, `str.upper` over Latin-1, integer formatting |
| levenshtein.dfy | Levenshtein | edit distance and the one-edit relation |
| stable_sort.dfy | StableSort | stable insertion sort by descending key (Python's `sort(key=len, reverse=True)`) |
| plate_utils.dfy | PlateUtils | `utils/__init__.py` |
| plate_records.dfy | PlateRecords | frames, records and `_first_valid_plate` with its predicates |
| plate_clustering.dfy | PlateClustering | `_cluster_block_plates` |
| roi_plate_analyser.dfy | RoiPlateAnalyser | ring buffer, window, history and `analyse_plates`; class `ROIPlateAnalyser` |
| capture_processor.dfy | CaptureProcessor | skip pattern, skip rate, track ids, batch queue |
| report.dfy | Report | `process_cache` |
| misc.dfy | Misc | `safe_string`, `safe_name` |
| controller.dfy | Controller | `_get_small_size`, `_get_crop_corners` |

### Modelling conventions

- Timestamps are integer microseconds.
- IOD values, boxes, plate corners and CO2 values are exact reals. The code
  computes with them in floating point: it subtracts and squares box
  coordinates, scales the region width by 0.25, shifts corners by offsets
  and sums CO2. The model does the same arithmetic without rounding.
- Code that loops and mutates becomes a method. Each method is proved equal to
  a specification function written as a fold over a prefix, and the
  properties are proved about that function. This covers:
  - `get_valid_plates`;
  - `rm_duplicates_1edit_away`, which sorts the caller's array in place;
  - `_first_valid_plate`;
  - the loops of `_cluster_block_plates`;
  - `analyse_plates`;
  - `_track_ids_for_detections`;
  - `process_cache`.
- The analyser and the batch queue are classes whose methods update their
  fields.

## Model

| member | source | states |
|---|---|---|
| Levenshtein.DistanceZeroIff | components/reader/code/utils/__init__.py:103 | the edit distance is zero exactly between equal strings |
| Levenshtein.WithinOneEditIffDistanceAtMostOne | components/reader/code/utils/__init__.py:103 | `distance(p, c) <= 1` holds iff the strings are equal or differ by one insertion, deletion or substitution |
| Levenshtein.DropFirstIsOneEdit | components/reader/code/utils/__init__.py:103 | dropping the first character is within one edit, both ways |
| Levenshtein.WithinOneEditCommonPrefix | components/reader/code/utils/__init__.py:103 | a common prefix does not change whether two strings are within one edit |
| StableSort.SortDescSortedPermutation | components/reader/code/utils/__init__.py:44 | sorting by descending length gives a non-increasing permutation |
| StableSort.SortDescStable | components/reader/code/utils/__init__.py:44 | the sort is stable: the items of each key stay in input order |
| StableSort.SortDescOfSorted | components/reader/code/utils/__init__.py:96 | a list already in non-increasing order is left unchanged |
| Chars.UpperKeepsCapitalsAndDigits | components/reader/code/utils/__init__.py:40 | `upper()` leaves capitals and digits unchanged |
| PlateUtils.AltRepresentationAt | components/reader/code/utils/__init__.py:59-70 | length is kept; inputs of length ≤ 3 are unchanged; from index 3 on, `I` becomes `1`; in the first three, `0`→`O` then `5`→`S` only when a `0` was there |
| PlateUtils.AltRepresentationRepairs | components/reader/code/utils/__init__.py:62-68 | no `I` remains from index 3 on; a first three that held a `0` afterwards holds no `0` and no `5` |
| PlateUtils.AltRepresentationIdempotent | components/reader/code/utils/__init__.py:59-70 | applying it twice equals applying it once |
| PlateUtils.AltRepresentationExamples | components/reader/code/tests/test_plate_utilities.py:7-14 | the six table cases (`ABC123`, `ABC12`, `BCI2`, `AC023I`→`ACO231`, `C00III`→`COO111`, `CDEI11`→`CDE111`) |
| PlateUtils.ObfuscatedPlateMasks | components/reader/code/utils/__init__.py:73-83 | ASCII letters become `A`, ASCII digits `1`, all else is unchanged; length is kept; idempotent |
| PlateUtils.MatchAtIsLongest | components/reader/code/utils/__init__.py:8 | a match at a position is the longest prefix there in the plate grammar (greedy quantifiers) |
| PlateUtils.SearchIsLeftmostMatch | components/reader/code/utils/__init__.py:8 | `search` finds the leftmost match, the match is in the grammar, and none means no position matches |
| PlateUtils.GetValidPlates | components/reader/code/utils/__init__.py:11-44 | the nested loops build exactly `ValidPlates` |
| PlateUtils.ValidPlatesMembers | components/reader/code/utils/__init__.py:20-42 | `[]` for empty input; p is in the output iff it is the search result of the upper-cased window of length 3–6 of the input or of its alternate form |
| PlateUtils.ValidPlatesDistinctSorted | components/reader/code/utils/__init__.py:23-44 | no duplicates; non-increasing length |
| PlateUtils.ValidPlatesShape | components/reader/code/utils/__init__.py:8 | every output is in the grammar: a letter A–C, E–O, Q–V, X–Z or `-`, one or two of A–Z, `,`, `Ä`, `Ö`, then 1–9 and up to two digits |
| PlateUtils.ValidPlatesOfABC123 | components/reader/code/tests/test_plate_utilities.py:16-35 | `ABC123` gives exactly ABC123, ABC12, BC123, ABC1, BC12, BC1 |
| PlateUtils.ValidPlatesOfA023 | components/reader/code/tests/test_plate_utilities.py:16-35 | `A023` gives exactly AO23, AO2 |
| PlateUtils.ValidPlatesOfDA123 | components/reader/code/tests/test_plate_utilities.py:16-35 | `DA123` gives `[]` |
| PlateUtils.ValidPlatesOfPA123 | components/reader/code/tests/test_plate_utilities.py:16-35 | `PA123` gives `[]` |
| PlateUtils.ValidPlatesOfWA123 | components/reader/code/tests/test_plate_utilities.py:16-35 | `WA123` gives `[]` |
| PlateUtils.ValidPlatesOfABC012 | components/reader/code/tests/test_plate_utilities.py:16-35 | `ABC012` gives `[]` |
| PlateUtils.ValidPlatesOfABC | components/reader/code/tests/test_plate_utilities.py:16-35 | `ABC` gives `[]` |
| PlateUtils.ValidPlatesOf123 | components/reader/code/tests/test_plate_utilities.py:16-35 | `123` gives `[]` |
| PlateUtils.FindAbsorber | components/reader/code/utils/__init__.py:100-105 | the inner loop finds a match iff some candidate starts with a letter and is within one edit |
| PlateUtils.SortByLengthDesc | components/reader/code/utils/__init__.py:96 | the caller's array becomes its stable sort by descending length |
| PlateUtils.RmDuplicates1EditAway | components/reader/code/utils/__init__.py:96-110 | the caller's array is stably sorted in place by descending length, and the result is the greedy fold over it |
| PlateUtils.RmDuplicatesSpec | components/reader/code/utils/__init__.py:96-110 | the result: is a subsequence of the sorted input with non-increasing length; no kept item is absorbed by an earlier kept item or a previous plate; every dropped item of the sorted input is absorbed by a previous plate or by a kept item at an earlier position |
| PlateUtils.RmDuplicatesDropsOneEdit | components/reader/code/tests/test_plate_utilities.py:37-41 | `["ABC123","ABC124"]` gives `["ABC123"]` |
| PlateUtils.RmDuplicatesKeepsLonger | components/reader/code/utils/__init__.py:96-110 | `["ABC12","ABC123"]` gives `["ABC123"]`: the sort puts the longer plate first, and it absorbs the shorter |
| PlateUtils.RmDuplicatesKeepsTwoEdits | components/reader/code/tests/test_plate_utilities.py:37-41 | `["ABC123","ABC135"]` is unchanged |
| PlateUtils.RmDuplicatesKeepsUnknowns | components/reader/code/utils/__init__.py:103 | `["[UNK_CAR_100]","[UNK_CAR_101]"]` is unchanged, because `[` is not a letter |
| PlateRecords.MatchDetTrackAndLabel | components/reader/code/roi_plate_analyser.py:350-373 | the zip loop returns `DetTrackAndLabel` |
| PlateRecords.DetTrackAndLabelCases | components/reader/code/roi_plate_analyser.py:350-373 | the first zipped detection that holds a plate corner strictly inside its offset box, with IOD > 0.15, gives id and label; with none, the label is `""` and the id is the last zipped id (−1 only when nothing is zipped) |
| PlateRecords.ArgMax | components/reader/code/roi_plate_analyser.py:416 | the index of the first largest IOD |
| PlateRecords.UnkTrackAndLabelRule | components/reader/code/roi_plate_analyser.py:411-429 | when the first largest-IOD detection has IOD > 0.15 and a box wider than 0.25 × the region width, the result is its track id and label; when no detection qualifies, it is (−1, `""`) |
| PlateRecords.LowIodMatchesNothing | components/reader/code/roi_plate_analyser.py:411-429 | with every IOD ≤ 0.15 the unknown match is (−1, `""`) |
| PlateRecords.UnknownLabel | components/reader/code/roi_plate_analyser.py:306 | the text starts with `[UNK` and ends with `_<id>]` |
| PlateRecords.FirstValidPlate | components/reader/code/roi_plate_analyser.py:276-318 | the loop over OCR results returns `FrameRecord` |
| PlateRecords.PlateFromResultsIsFirstUsable | components/reader/code/roi_plate_analyser.py:287-302 | a plate is read iff some result is wider than 60 px and has a valid plate; it then comes from the first such result, is a longest valid plate of it, and carries the frame's time and region |
| PlateRecords.UnknownVehicleRule | components/reader/code/roi_plate_analyser.py:304-318 | an unknown-vehicle record is made iff: the first largest-IOD detection has IOD > 0.15 and a box wider than 0.25 × the region width; its track id is ≥ 0; no read-plate record has the id; no record ending `_<id>]` has another text. The record carries that detection's track id and label and is named `[UNK_<LABEL>_<id>]` |
| PlateRecords.PlateFromResultsReadIff | components/reader/code/roi_plate_analyser.py:287-302 | from index i on, a plate is read iff some later result is usable |
| PlateRecords.PlateFromResultsSource | components/reader/code/roi_plate_analyser.py:287-302 | a plate read from index i on comes from the first usable result at or after i, as its longest valid plate with that result's confidence and matched detection |
| PlateRecords.PlateFromResultsShape | components/reader/code/roi_plate_analyser.py:291-301 | a read plate is in the plate grammar |
| PlateRecords.FrameRecordHasText | components/reader/code/roi_plate_analyser.py:276-318 | every record a frame yields has non-empty text |
| PlateClustering.TallyBlock | components/reader/code/roi_plate_analyser.py:134-147 | the loop builds `GroupsOf` |
| PlateClustering.GroupsOfObservations | components/reader/code/roi_plate_analyser.py:134-147 | each group is a distinct text. Its record is the first record with that text, its count the number of such records, and its id and label lists those records' ids and labels in order |
| PlateClustering.BuildClusters | components/reader/code/roi_plate_analyser.py:154-164 | the loop builds `RawClusters` |
| PlateClustering.RawClustersAreNear | components/reader/code/roi_plate_analyser.py:154-164 | every cluster key is a kept text, and its members are exactly the texts within one edit of it, in order |
| PlateClustering.SortAndPoolCluster | components/reader/code/roi_plate_analyser.py:167-189 | one cluster: its members come out sorted by descending count and still index groups, and the pools become those of `PoolCluster` over the sorted members |
| PlateClustering.SortAndPool | components/reader/code/roi_plate_analyser.py:167-189 | members sorted stably by descending count; each key's id and label pool extends the list of its first member (aliasing) |
| PlateClustering.Mode | components/reader/code/roi_plate_analyser.py:194 | `max(l, key=l.count)`: a most frequent value, the first one on ties |
| PlateClustering.VoteTrack | components/reader/code/roi_plate_analyser.py:192-195 | one key's track vote, as `TrackVote` states it |
| PlateClustering.ApplyTrackVotes | components/reader/code/roi_plate_analyser.py:191-195 | the loop computes `TrackVotes` |
| PlateClustering.VoteKind | components/reader/code/roi_plate_analyser.py:198-201 | one key's label vote, as `KindVote` states it |
| PlateClustering.ApplyKindVotes | components/reader/code/roi_plate_analyser.py:197-201 | the loop computes `KindVotes` |
| PlateClustering.TrackVoteEffect | components/reader/code/roi_plate_analyser.py:191-195 | one key's track vote rewrites only the group with that text, to the mode of the cluster's positive ids, and only when there is one |
| PlateClustering.KindVoteEffect | components/reader/code/roi_plate_analyser.py:197-201 | one key's label vote rewrites only the group with that text, to the mode of the cluster's non-empty labels, and only when there is one |
| PlateClustering.TrackVotesEffect | components/reader/code/roi_plate_analyser.py:191-195 | after all keys' track votes, each group carries its `VotedTrack` and is otherwise unchanged |
| PlateClustering.KindVotesEffect | components/reader/code/roi_plate_analyser.py:197-201 | after all keys' label votes, each group carries its `VotedKind` and is otherwise unchanged |
| PlateClustering.BlockVotesEffect | components/reader/code/roi_plate_analyser.py:191-201 | the votes change only the id and label of the group keyed by each cluster key: to the mode of its positive ids and of its non-empty labels, or leave them when there are none |
| PlateClustering.SelectCandidates | components/reader/code/roi_plate_analyser.py:204-207 | the loop collects the head of every cluster whose head count is ≥ 8 |
| PlateClustering.ClusterPlates | components/reader/code/roi_plate_analyser.py:115-211 | the method returns `ClusterBlockPlates` |
| PlateClustering.ClusterHeadMostObserved | components/reader/code/roi_plate_analyser.py:149-173 | a cluster head is within one edit of its key, and is seen at least as often as any text within one edit of the key |
| PlateClustering.ReportHead | components/reader/code/roi_plate_analyser.py:203-211 | every report heads some cluster: the head group has the report's text and count, the count is at least 8, and the report's record is the head's voted record |
| PlateClustering.ReportMostFrequent | components/reader/code/roi_plate_analyser.py:203-211 | every report is the most frequent text within one edit of some text of the window |
| PlateClustering.ReportsCountObservations | components/reader/code/roi_plate_analyser.py:203-211 | a report's count is its number of records, at least 8; its record is the first with its text, apart from id and label |
| PlateClustering.ReportsNotDuplicated | components/reader/code/roi_plate_analyser.py:209-211 | reports have non-increasing length, and none is absorbed by an earlier report or a previous plate |
| PlateClustering.ReportVotedIds | components/reader/code/roi_plate_analyser.py:191-201 | a report's id is its first record's or a positive id from the window; its label is the first record's or a non-empty label from the window |
| PlateClustering.NoRecordsNoReports | components/reader/code/roi_plate_analyser.py:134-147 | a window without records yields no reports |
| RoiPlateAnalyser.EmptyBlock | components/reader/code/roi_plate_analyser.py:37 | 150 empty records |
| RoiPlateAnalyser.Push | components/reader/code/roi_plate_analyser.py:37 | `deque(maxlen=150).append`: a full buffer drops its oldest entry and keeps the others in order |
| RoiPlateAnalyser.PlatesFromLastNSecs | components/reader/code/roi_plate_analyser.py:213-230 | keeps exactly the entries whose age is ≤ the span, with their multiplicities; empty slots count as epoch 0 |
| RoiPlateAnalyser.Groom | components/reader/code/roi_plate_analyser.py:232-250 | keeps exactly the entries whose age is ≤ 60 s, unchanged |
| RoiPlateAnalyser.RecordResultsSpec | components/reader/code/roi_plate_analyser.py:95-105 | a result is reported iff its text is not in history, and then once. Reported texts are appended to the key order. Every result's text enters history. An existing entry changes only to a strictly later one |
| RoiPlateAnalyser.ScanWindowReports | components/reader/code/roi_plate_analyser.py:78-111 | a scan reports exactly the window's results not in history, without repeats; after grooming no entry is older than 60 s |
| RoiPlateAnalyser.ReportedAgainAfterDelay | components/reader/code/tests/test_plate_analysis.py:222-274 | an entry older than 60 s is groomed away, so the plate is reported again when seen again |
| RoiPlateAnalyser.RunConsistent | components/reader/code/roi_plate_analyser.py:66-111 | along the frame loop, buffer records and history keys keep non-empty texts and the history keys stay distinct |
| RoiPlateAnalyser.RunBuffers | components/reader/code/roi_plate_analyser.py:66-73 | the buffer receives the non-`None` records of the frames in frame order |
| RoiPlateAnalyser.LowIodFrameYieldsNothing | components/reader/code/roi_plate_analyser.py:287-318 | a frame with no usable OCR result and every IOD ≤ 0.15 yields no record |
| RoiPlateAnalyser.NothingObservedNothingReported | components/reader/code/tests/test_plate_analysis.py:193-205 | such frames on a fresh analyser report nothing and leave the buffer empty |
| RoiPlateAnalyser.ROIPlateAnalyser.constructor | components/reader/code/roi_plate_analyser.py:35-38 | a buffer of 150 empty records and an empty history |
| RoiPlateAnalyser.ROIPlateAnalyser.Append | components/reader/code/roi_plate_analyser.py:72-73 | the ring buffer's contents become `Push` of the old ones; the history is unchanged |
| RoiPlateAnalyser.ROIPlateAnalyser.Record | components/reader/code/roi_plate_analyser.py:95-105 | the history and the reports follow `RecordResults` |
| RoiPlateAnalyser.ROIPlateAnalyser.ScanBlock | components/reader/code/roi_plate_analyser.py:78-111 | the buffer is unchanged; history and reports follow `ScanWindow` |
| RoiPlateAnalyser.ROIPlateAnalyser.ProcessFrame | components/reader/code/roi_plate_analyser.py:66-111 | one frame-loop iteration moves the buffer, history, scan start and reports exactly as `FrameStep` does |
| RoiPlateAnalyser.ROIPlateAnalyser.AnalysePlates | components/reader/code/roi_plate_analyser.py:52-113 | the buffer, history and reports become those of `Analysis`, and the class invariant is kept |
| CaptureProcessor.DiscardN | components/processor/code/processor/capture_processor.py:299-325 | the pattern has `length` entries |
| CaptureProcessor.DiscardNCount | components/processor/code/processor/capture_processor.py:299-325 | the pattern is 0/1; all zeros for n ≤ 0, all ones for n ≥ length, otherwise exactly n ones |
| CaptureProcessor.DiscardNSpread | components/processor/code/processor/capture_processor.py:314-324 | for 0 < n < length/2, no two ones are adjacent |
| CaptureProcessor.SkipRate | components/processor/code/processor/capture_processor.py:165-170 | the rate is the raw rate, raised to 45 when lower |
| CaptureProcessor.SkipsPerHundred | components/processor/code/processor/capture_processor.py:170-174 | frame `100·b + j` of a batch is skipped iff pattern entry j is 1; each 100 frames hold min(rate, 100) ≥ 45 skips |
| CaptureProcessor.ArgMin | components/processor/code/processor/capture_processor.py:290 | the index of the first least distance |
| CaptureProcessor.TrackIdsForDetections | components/processor/code/processor/capture_processor.py:282-297 | the row loop returns `TrackIds` under the limit ((h+w)·0.5·0.02)² |
| CaptureProcessor.TrackIdsLastWriter | components/processor/code/processor/capture_processor.py:288-295 | a detection no row targets keeps −1; otherwise the last row that targets it decides: its id if the distance is under the limit, −1 if not |
| CaptureProcessor.TrackIdsFromRows | components/processor/code/processor/capture_processor.py:282-295 | with no rows, every entry is −1; each entry is −1 or the truncated id of a row |
| CaptureProcessor.ReplayFifo | components/processor/code/processor/capture_processor.py:123-129 | over any sequence of hand-offs and pops, popped + pending equals the accepted batches in order, and at most 120 are pending |
| CaptureProcessor.ImageCache.HandOffBatch | components/processor/code/processor/capture_processor.py:123-129 | a non-empty batch is appended only while fewer than 120 are pending, and the frame cache is cleared |
| CaptureProcessor.ImageCache.PopBatch | components/processor/code/processor/capture_processor.py:157-160 | pops the oldest batch, or nothing when the queue is empty |
| Report.Count | components/database/code/report.py:43-48 | a missing type starts at zero and then counts one more: the keys gain the type, its count is one more than before (or one), and every other count is unchanged |
| Report.ProcessCache | components/database/code/report.py:28-52 | the loop builds `Summary` and the ids in order; the ids are deleted iff sending succeeded |
| Report.SummaryFields | components/database/code/report.py:37-48 | car count = number of entries; co2 = the sum; each type map is the tally of its types; no entries give the zero aggregate |
| Report.TallyCounts | components/database/code/report.py:43-48 | the keys are exactly the types seen, and each count is the type's number of occurrences |
| Report.TallySum | components/database/code/report.py:43-48 | the counts add up to the number of entries |
| Report.ProcessCacheMeaning | components/database/code/report.py:35-48 | all of the above for `car_types` and `gas_types` together |
| Misc.SafeCharsSpec | components/cloud/code/utils/misc.py:39 | length is kept; each character stays when alphanumeric or in `valid`, otherwise becomes `_` |
| Misc.CollapseNoDouble | components/cloud/code/utils/misc.py:40-41 | after collapsing, no two underscores are adjacent |
| Misc.CollapseSkeleton | components/cloud/code/utils/misc.py:40-41 | collapsing keeps every non-underscore character, in order |
| Misc.CollapseFixed | components/cloud/code/utils/misc.py:40-41 | a string without `__` is unchanged by collapsing |
| Misc.SafeStringNoRepeat | components/cloud/code/utils/misc.py:40-41 | with `no_repeat`, the output has no `__` |
| Misc.SafeStringIdempotent | components/cloud/code/utils/misc.py:28-42 | `safe_string` is idempotent for fixed `valid` and `no_repeat` |
| Misc.SafeNameChars | components/cloud/code/utils/misc.py:18-25 | a safe name holds only alphanumerics, `-`, `_` and `.`, so never `/` |
| Controller.ScaledWidth | components/processor/code/controller/controller.py:125-126 | `w` is the truncated `width·480/height`: `w·height ≤ width·480 < (w+1)·height` |
| Controller.CropCornersSpec | components/processor/code/controller/controller.py:156-163 | the crop: is 480 rows high and as wide as the thumbnail; starts at `y1 = height/2 − 240`; is centred exactly in y and to within one pixel in x; has `x1` equal to `r = width/2 − w/2` truncated toward zero: `x1 ≤ r < x1+1` when `r ≥ 0`, and `x1−1 < r ≤ x1` when `r < 0` |

## Left out

- Unicode: `isalpha`, `isalnum` and `upper` are modelled for ASCII and Latin-1 letters only. Other scripts count as neither letters nor digits.
- `sorted`/`list.sort` (Timsort) is replaced by a stable insertion sort with the same result.
- `get_valid_plates` builds a set. Its order before the final sort is not modelled. The model returns the matches in first-found order, then sorts them stably by length. Among equal lengths, Python's order depends on set iteration and is unspecified. The proved properties (members, distinct, non-increasing length) hold for any order.
- Python's `re` engine is not modelled. The plate regex is modelled by its grammar, using a greedy leftmost matcher. The class `[A-C-E-O-Q-V-X-Z]` is read as A–C, E–O, Q–V, X–Z plus `-`.
- PlateUtils.RmDuplicates1EditAway: requires every text, and every previous plate, to be non-empty. On an empty text, `c[0]` at `utils/__init__.py:103` raises `IndexError`, and the exception path is not modelled. The analyser only passes valid plates and `[UNK_…]` labels, which are never empty (`FrameRecordHasText`, `RunConsistent`).
- PlateClustering.ClusterPlates: requires non-empty texts for the same reason.
- `timestamp_to_date`, `get_float` and `_safe_cast`: library parsing, not modelled.
- The debug logging in `analyse_plates` and elsewhere is not modelled.
- `PlateClustering.Mode`: the `KeyError` path at `roi_plate_analyser.py:195` is not modelled. In the code it cannot be reached, because cluster keys are always `distinct_plates` keys.
- The aliasing of id/label lists (lines 178-188) is modelled through the `owner` map. A key's pool is the list slot of the first member that reached it, and extending the pool rewrites that slot, so a later cluster that holds that member reads the extended list, as the shared list object does in the code. Object identity itself is not modelled.
- The `try/except` in `_match_det_track_and_label` and `_match_unk_track_and_label`: malformed metadata (missing keys) is not modelled. A frame's metadata is a record with all fields. In `_match_unk_track_and_label`, an argmax index past the end of `detections` or `track_ids` raises `IndexError`, which the method catches, giving (−1, `""`).
- Timestamps are integer microseconds. `total_seconds()` float rounding is not modelled, nor is the rounding of the float sum `time_from_block_roi_start + 5` that bounds the scan window.
- Floating-point arithmetic: the model computes exactly in reals where the code rounds. This covers the squared box distances of `_track_ids_for_detections`, the `0.25 * roi_w` width test, corner offsets and CO2 sums. A comparison that lands within rounding error of its bound may therefore go the other way in the code.
- `CaptureProcessor.DiscardN`: `np.linspace` is floating-point. The points are modelled as `floor(i·(length−1)/(num−1))`, and numpy's rounding could differ at isolated points.
- `CaptureProcessor.SkipRate`: the raw rate `int(-6 + 21·log(len − 0.8))` is an input. The float logarithm is not modelled. Its `ValueError` case gives rate 0, which is clamped to 45.
- `CaptureProcessor.TrackIdsForDetections`:
  - tracker rows come from the SORT tracker, which is not part of this model;
  - ids are reals truncated toward zero;
  - with no detections, the broadcast `bboxes - tracks[i, :4]` at `capture_processor.py:289` raises, because the arrays have shapes (0,) and (4,). So the model requires detections when there are rows. The caller's `if roi_detections:` guard at `capture_processor.py:233` means this always holds.
- The capture, YOLO and controller threads, camera reads, `imagehash` motion gating, sleeps and wall-clock time are not modelled. Neither are HTTP, file writes, OpenCV, the mask and warp geometry, or the OCR and YOLO engines.
- `Report.ProcessCache`:
  - the outcome of `send_emissions` is a parameter (its `random()` is not modelled);
  - the database calls are reduced to the ids they would delete;
  - CO2 is summed as reals, without floating-point rounding.
- `Controller.ScaledWidth`: `width·480/height` is float division in the code. The model uses the exact quotient. Truncation of the exact and the floating value may differ only when the float rounds across an integer.
- `Controller.ScaledWidth`, `Controller.SmallSize`, `Controller.CropCorners`: require a positive image height. On a zero-height image the code raises `ZeroDivisionError` at `controller.py:126` and `controller.py:157`, and that exception path is not modelled.
- `Controller.CropCornersSpec` does not model the slicing of the image (`_get_cropped`). Only the corner arithmetic is modelled.
- `plate_reader.py`, the database, hashing, encryption and the web app are not part of this model.
