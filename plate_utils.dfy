/**
 * Plate-text normalisation of the reader component
 * (components/reader/code/utils/__init__.py): OCR-confusion repair, the
 * Finnish plate grammar VALID_PLATE_RE, the candidate plates hidden in a raw
 * OCR string, log obfuscation, and greedy near-duplicate removal.
 */
module PlateUtils {
  import opened Wrappers
  import opened Chars
  import opened Levenshtein
  import opened StableSort

  const MIN_PLATE_LENGTH: nat := 3
  const MAX_PLATE_LENGTH: nat := 6

  // ---------------------------------------------------------------------
  // get_alt_representation
  // ---------------------------------------------------------------------

  /** `s.replace(from, to)` for single characters. */
  function ReplaceChar(s: string, from: char, to: char): (r: string)
    ensures |r| == |s|
    ensures forall i :: 0 <= i < |s| ==> r[i] == (if s[i] == from then to else s[i])
  {
    seq(|s|, i requires 0 <= i < |s| => if s[i] == from then to else s[i])
  }

  /** The first repair (line 62-63): `I` becomes `1` after the third character. */
  function FixI(plate: string): (r: string)
    ensures |r| == |plate|
    ensures forall i :: 0 <= i < |plate| ==>
      r[i] == (if i >= 3 && plate[i] == 'I' then '1' else plate[i])
  {
    if |plate| > 3 && 'I' in plate[3..] then
      var r := plate[..3] + ReplaceChar(plate[3..], 'I', '1');
      assert forall i :: 3 <= i < |plate| ==> r[i] == ReplaceChar(plate[3..], 'I', '1')[i - 3];
      r
    else
      assert forall i :: 3 <= i < |plate| && plate[i] == 'I' ==> 'I' == plate[3..][i - 3];
      plate
  }

  /** The second repair (lines 66-68): when a `0` is among the first three
      characters, `0` becomes `O` and then `5` becomes `S` among them. */
  function Fix0(s: string): (r: string)
    ensures |r| == |s|
    ensures forall i :: 3 <= i < |s| ==> r[i] == s[i]
    ensures |s| > 3 && '0' in s[..3] ==> forall i :: 0 <= i < 3 ==>
      r[i] == (if s[i] == '0' then 'O' else if s[i] == '5' then 'S' else s[i])
    ensures !(|s| > 3 && '0' in s[..3]) ==> r == s
  {
    if |s| > 3 && '0' in s[..3] then
      var fixed0 := ReplaceChar(s[..3], '0', 'O') + s[3..];
      assert fixed0[..3] == ReplaceChar(s[..3], '0', 'O');
      var r := ReplaceChar(fixed0[..3], '5', 'S') + fixed0[3..];
      assert forall i :: 3 <= i < |s| ==> r[i] == fixed0[3..][i - 3] == s[i];
      r
    else
      s
  }

  /** Repairs the OCR confusions I/1 after the third character and 0/O, 5/S
      within the first three; the second repair only fires when a `0` is
      among the first three characters. */
  function AltRepresentation(plate: string): string {
    Fix0(FixI(plate))
  }

  /** Character by character: positions from 3 on have `I` turned into `1`;
      the first three have `0` turned into `O` and `5` into `S` exactly when
      the string is longer than three and one of them is a `0`. */
  lemma AltRepresentationAt(plate: string)
    ensures |AltRepresentation(plate)| == |plate|
    ensures |plate| <= 3 ==> AltRepresentation(plate) == plate
    ensures forall i :: 3 <= i < |plate| ==>
      AltRepresentation(plate)[i] == (if plate[i] == 'I' then '1' else plate[i])
    ensures |plate| > 3 && '0' in plate[..3] ==>
      forall i :: 0 <= i < 3 ==>
        AltRepresentation(plate)[i] ==
          (if plate[i] == '0' then 'O' else if plate[i] == '5' then 'S' else plate[i])
    ensures !(|plate| > 3 && '0' in plate[..3]) ==>
      forall i :: 0 <= i < 3 && i < |plate| ==> AltRepresentation(plate)[i] == plate[i]
  {
    var f := FixI(plate);
    if |plate| > 3 {
      assert f[..3] == plate[..3];
    } else {
      assert f == plate;
    }
  }

  /** The properties the repair is for: no `I` survives from index 3 on, and
      when the head held a `0` it afterwards holds neither `0` nor `5`. */
  lemma AltRepresentationRepairs(plate: string)
    ensures forall i :: 3 <= i < |AltRepresentation(plate)| ==> AltRepresentation(plate)[i] != 'I'
    ensures |plate| > 3 && '0' in plate[..3] ==>
      '0' !in AltRepresentation(plate)[..3] && '5' !in AltRepresentation(plate)[..3]
  {
    AltRepresentationAt(plate);
    var r := AltRepresentation(plate);
    if |plate| > 3 && '0' in plate[..3] {
      forall i | 0 <= i < 3 ensures r[..3][i] != '0' && r[..3][i] != '5' {
        assert r[..3][i] == r[i];
      }
    }
  }

  /** Repairing twice is repairing once. */
  lemma AltRepresentationIdempotent(plate: string)
    ensures AltRepresentation(AltRepresentation(plate)) == AltRepresentation(plate)
  {
    var r := AltRepresentation(plate);
    AltRepresentationAt(plate);
    AltRepresentationAt(r);
    AltRepresentationRepairs(plate);
    if |plate| > 3 && '0' !in plate[..3] {
      assert r[..3] == plate[..3];
    }
    var rr := AltRepresentation(r);
    assert |rr| == |r|;
    forall i | 0 <= i < |r| ensures rr[i] == r[i] {
      if i >= 3 {
        assert r[i] != 'I';
      }
    }
  }

  lemma AltRepresentationKeepsABC123()
    ensures AltRepresentation("ABC123") == "ABC123"
  {
    assert "ABC123"[..3] == "ABC" && "ABC123"[3..] == "123";
  }

  lemma AltRepresentationKeepsABC12()
    ensures AltRepresentation("ABC12") == "ABC12"
  {
    assert "ABC12"[..3] == "ABC" && "ABC12"[3..] == "12";
  }

  lemma AltRepresentationKeepsBCI2()
    ensures AltRepresentation("BCI2") == "BCI2"
  {
    assert "BCI2"[..3] == "BCI" && "BCI2"[3..] == "2";
  }

  /** A string longer than three with a `0` in its head is repaired
      character by character into `e`. */
  lemma AltRepresentationRepairsTo(d: string, e: string)
    requires |d| == |e| > 3 && '0' in d[..3]
    requires forall i :: 0 <= i < 3 ==>
      e[i] == (if d[i] == '0' then 'O' else if d[i] == '5' then 'S' else d[i])
    requires forall i :: 3 <= i < |d| ==> e[i] == (if d[i] == 'I' then '1' else d[i])
    ensures AltRepresentation(d) == e
  {
    AltRepresentationAt(d);
  }

  lemma AltRepresentationFixesAC023I(d: string)
    requires d == "AC023I"
    ensures AltRepresentation(d) == "ACO231"
  {
    assert d[..3][2] == '0';
    AltRepresentationRepairsTo(d, "ACO231");
  }

  lemma AltRepresentationFixesC00III(d: string)
    requires d == "C00III"
    ensures AltRepresentation(d) == "COO111"
  {
    assert d[..3][1] == '0';
    AltRepresentationRepairsTo(d, "COO111");
  }

  lemma AltRepresentationFixesCDEI11(d: string)
    requires d == "CDEI11"
    ensures AltRepresentation(d) == "CDE111"
  {
    AltRepresentationAt(d);
    assert '0' !in d[..3] by {
      assert d[..3] == "CDE";
    }
    assert AltRepresentation(d)[3] == '1';
  }

  /** The table of the reader's unit tests for the repair. */
  lemma AltRepresentationExamples()
    ensures AltRepresentation("ABC123") == "ABC123"
    ensures AltRepresentation("ABC12") == "ABC12"
    ensures AltRepresentation("BCI2") == "BCI2"
    ensures AltRepresentation("AC023I") == "ACO231"
    ensures AltRepresentation("C00III") == "COO111"
    ensures AltRepresentation("CDEI11") == "CDE111"
  {
    AltRepresentationKeepsABC123();
    AltRepresentationKeepsABC12();
    AltRepresentationKeepsBCI2();
    AltRepresentationFixesAC023I("AC023I");
    AltRepresentationFixesC00III("C00III");
    AltRepresentationFixesCDEI11("CDEI11");
  }

  // ---------------------------------------------------------------------
  // get_obfuscated_plate
  // ---------------------------------------------------------------------

  /** `re.sub(r"[a-zA-Z]", "A", s)` */
  function MaskLetters(s: string): (r: string)
    ensures |r| == |s|
  {
    if s == [] then []
    else MaskLetters(s[..|s| - 1]) + [if IsAsciiLetter(s[|s| - 1]) then 'A' else s[|s| - 1]]
  }

  /** `re.sub(r"[0-9]", "1", s)` */
  function MaskDigits(s: string): (r: string)
    ensures |r| == |s|
  {
    if s == [] then []
    else MaskDigits(s[..|s| - 1]) + [if IsAsciiDigit(s[|s| - 1]) then '1' else s[|s| - 1]]
  }

  /** Letters are masked first, digits second, as in the nested `re.sub`. */
  function ObfuscatedPlate(plate: string): string {
    MaskDigits(MaskLetters(plate))
  }

  function ObfuscatedChar(c: char): char {
    if IsAsciiLetter(c) then 'A' else if IsAsciiDigit(c) then '1' else c
  }

  lemma {:induction false} ObfuscatedPlateAt(plate: string)
    ensures |ObfuscatedPlate(plate)| == |plate|
    ensures forall i :: 0 <= i < |plate| ==> ObfuscatedPlate(plate)[i] == ObfuscatedChar(plate[i])
  {
    if plate != [] {
      var init := plate[..|plate| - 1];
      ObfuscatedPlateAt(init);
      assert MaskLetters(plate)[..|plate| - 1] == MaskLetters(init);
      assert MaskDigits(MaskLetters(plate)) == MaskDigits(MaskLetters(init)) + [ObfuscatedChar(plate[|plate| - 1])];
    }
  }

  /** Every ASCII letter becomes `A`, every ASCII digit `1`, anything else
      is kept; the length is preserved and masking twice changes nothing. */
  lemma ObfuscatedPlateMasks(plate: string)
    ensures |ObfuscatedPlate(plate)| == |plate|
    ensures forall i :: 0 <= i < |plate| ==>
      && (IsAsciiLetter(plate[i]) ==> ObfuscatedPlate(plate)[i] == 'A')
      && (IsAsciiDigit(plate[i]) ==> ObfuscatedPlate(plate)[i] == '1')
      && (!IsAsciiLetter(plate[i]) && !IsAsciiDigit(plate[i]) ==> ObfuscatedPlate(plate)[i] == plate[i])
    ensures ObfuscatedPlate(ObfuscatedPlate(plate)) == ObfuscatedPlate(plate)
  {
    ObfuscatedPlateAt(plate);
    ObfuscatedPlateAt(ObfuscatedPlate(plate));
  }

  // ---------------------------------------------------------------------
  // VALID_PLATE_RE = [A-C-E-O-Q-V-X-Z][A-Z,Ä,Ö]{1,2}[1-9]\d{0,2}
  // ---------------------------------------------------------------------

  /** The first class as Python's parser reads `[A-C-E-O-Q-V-X-Z]`: the
      ranges A-C, E-O, Q-V, X-Z and a literal `-`.  D, P and W are excluded. */
  predicate IsLeadChar(c: char) {
    ('A' <= c <= 'C') || ('E' <= c <= 'O') || ('Q' <= c <= 'V') || ('X' <= c <= 'Z') || c == '-'
  }

  /** The class `[A-Z,Ä,Ö]`: A to Z, the comma, Ä and Ö. */
  predicate IsLetterChar(c: char) {
    ('A' <= c <= 'Z') || c == ',' || c == 'Ä' || c == 'Ö'
  }

  predicate IsNonZeroDigit(c: char) { '1' <= c <= '9' }

  predicate AllDigits(s: string) {
    forall i :: 0 <= i < |s| ==> IsAsciiDigit(s[i])
  }

  /** A string the pattern matches as a whole: a lead character, one or two
      letters, a digit 1-9 and at most two further digits. */
  predicate MatchesPlateGrammar(m: string) {
    && 3 <= |m| <= 6
    && IsLeadChar(m[0])
    && IsLetterChar(m[1])
    && (|| (|m| <= 5 && IsNonZeroDigit(m[2]) && AllDigits(m[3..]))
        || (4 <= |m| && IsLetterChar(m[2]) && IsNonZeroDigit(m[3]) && AllDigits(m[4..])))
  }

  /** How many digits the greedy `\d{0,2}` takes at position j. */
  function DigitRun(s: string, j: nat): (n: nat)
    ensures n <= 2 && (n > 0 ==> j + n <= |s|)
  {
    if j < |s| && IsAsciiDigit(s[j]) then
      (if j + 1 < |s| && IsAsciiDigit(s[j + 1]) then 2 else 1)
    else 0
  }

  /** The length of the match the backtracking engine finds when the
      pattern is anchored at position i: the greedy `{1,2}` tries two
      letters first and falls back to one. */
  function MatchAt(s: string, i: nat): Option<nat> {
    if i + 4 <= |s| && IsLeadChar(s[i]) && IsLetterChar(s[i + 1]) && IsLetterChar(s[i + 2])
       && IsNonZeroDigit(s[i + 3])
    then Some(4 + DigitRun(s, i + 4))
    else if i + 3 <= |s| && IsLeadChar(s[i]) && IsLetterChar(s[i + 1]) && IsNonZeroDigit(s[i + 2])
    then Some(3 + DigitRun(s, i + 3))
    else None
  }

  /** The leftmost position from i on where the pattern matches, with the
      length of that match. */
  function SearchFrom(s: string, i: nat): Option<(nat, nat)>
    decreases |s| - i
  {
    if i >= |s| then None
    else match MatchAt(s, i)
      case Some(n) => Some((i, n))
      case None => SearchFrom(s, i + 1)
  }

  /** `VALID_PLATE_RE.search(s)[0]`, or None where the search finds nothing. */
  function Search(s: string): Option<string> {
    match SearchFrom(s, 0)
    case Some((i, n)) => if i + n <= |s| then Some(s[i..i + n]) else None
    case None => None
  }

  lemma MatchAtFits(s: string, i: nat)
    ensures MatchAt(s, i).Some? ==> i + MatchAt(s, i).value <= |s|
    ensures MatchAt(s, i).Some? ==> MatchesPlateGrammar(s[i..i + MatchAt(s, i).value])
  {
    if MatchAt(s, i).Some? {
      var n := MatchAt(s, i).value;
      var m := s[i..i + n];
      assert forall k :: 0 <= k < n ==> m[k] == s[i + k];
    }
  }

  /** Because the third character of a match is a letter in one alternative
      and a digit 1-9 in the other, the engine's choice is the LONGEST prefix
      of s[i..] that the pattern matches as a whole. */
  lemma MatchAtIsLongest(s: string, i: nat, k: nat)
    requires i + k <= |s| && MatchesPlateGrammar(s[i..i + k])
    ensures MatchAt(s, i).Some? && k <= MatchAt(s, i).value
  {
    var m := s[i..i + k];
    assert forall j :: 0 <= j < k ==> m[j] == s[i + j];
    if |m| >= 4 && IsLetterChar(m[2]) && IsNonZeroDigit(m[3]) && AllDigits(m[4..]) {
      if k >= 5 { assert m[4..][0] == s[i + 4]; }
      if k == 6 { assert m[4..][1] == s[i + 5]; }
    } else {
      if k >= 4 { assert m[3..][0] == s[i + 3]; }
      if k == 5 { assert m[3..][1] == s[i + 4]; }
    }
  }

  lemma {:induction false} SearchFromLeftmost(s: string, i: nat)
    ensures SearchFrom(s, i).Some? ==>
      && i <= SearchFrom(s, i).value.0
      && MatchAt(s, SearchFrom(s, i).value.0) == Some(SearchFrom(s, i).value.1)
      && forall j :: i <= j < SearchFrom(s, i).value.0 ==> MatchAt(s, j).None?
    ensures SearchFrom(s, i).None? ==> forall j :: i <= j ==> MatchAt(s, j).None?
    decreases |s| - i
  {
    if i < |s| && MatchAt(s, i).None? {
      SearchFromLeftmost(s, i + 1);
    }
  }

  /** `search` returns the leftmost match, and the match found there is a
      whole-pattern match; it finds nothing only when no position matches. */
  lemma SearchIsLeftmostMatch(s: string)
    ensures Search(s).Some? ==>
      exists i :: 0 <= i && i + |Search(s).value| <= |s|
        && s[i..i + |Search(s).value|] == Search(s).value
        && MatchAt(s, i) == Some(|Search(s).value|)
        && (forall j :: 0 <= j < i ==> MatchAt(s, j).None?)
    ensures Search(s).Some? ==> MatchesPlateGrammar(Search(s).value)
    ensures Search(s).None? <==> forall j :: 0 <= j ==> MatchAt(s, j).None?
  {
    SearchFromLeftmost(s, 0);
    if SearchFrom(s, 0).Some? {
      var (i, n) := SearchFrom(s, 0).value;
      MatchAtFits(s, i);
      assert Search(s) == Some(s[i..i + n]);
    }
  }

  // ---------------------------------------------------------------------
  // get_valid_plates
  // ---------------------------------------------------------------------

  /** The sort key `len`. */
  function Length(p: string): int { |p| }

  predicate Distinct<T(==)>(s: seq<T>) {
    forall i, j :: 0 <= i < j < |s| ==> s[i] != s[j]
  }

  /** `[attempt[i:i + n] for i in range(max(0, len(attempt) - n + 1))]` */
  function WindowsOfLength(s: string, n: nat): (r: seq<string>)
    requires n > 0
    ensures |r| == if |s| >= n then |s| - n + 1 else 0
    ensures forall i :: 0 <= i < |r| ==> r[i] == s[i..i + n]
  {
    var count := if |s| >= n then |s| - n + 1 else 0;
    seq(count, i requires 0 <= i < count => s[i..i + n])
  }

  /** The windows of lengths MIN_PLATE_LENGTH up to, but excluding, n, in
      the order the nested loops produce them. */
  function WindowsBelow(s: string, n: nat): seq<string>
    requires n >= MIN_PLATE_LENGTH
  {
    if n == MIN_PLATE_LENGTH then [] else WindowsBelow(s, n - 1) + WindowsOfLength(s, n - 1)
  }

  /** Every window of length 3 to 6. */
  function Windows(s: string): seq<string> {
    WindowsBelow(s, MAX_PLATE_LENGTH + 1)
  }

  /** Adds the regex match of each upper-cased candidate, in order, to an
      insertion-ordered set kept as a duplicate-free sequence. */
  function AddMatches(found: seq<string>, cs: seq<string>): seq<string> {
    if cs == [] then found
    else
      var f := AddMatches(found, cs[..|cs| - 1]);
      match Search(Upper(cs[|cs| - 1]))
      case Some(m) => if m in f then f else f + [m]
      case None => f
  }

  /** What get_valid_plates returns.  The candidate list is never reset, so
      the second pass re-scans the windows of the raw text before those of
      its repaired form; the set of matches comes out sorted by length,
      longest first.  Python leaves the order of equal-length matches to set
      iteration; the model keeps them in order of discovery. */
  function ValidPlates(detection: string): seq<string> {
    if detection == [] then []
    else
      var firstPass := Windows(detection);
      var secondPass := firstPass + Windows(AltRepresentation(detection));
      SortDesc(AddMatches(AddMatches([], firstPass), secondPass), Length)
  }

  /** One pass of the inner `for num_chars` loop: extends the candidate
      list with every window of the attempt, shortest windows first. */
  method AppendWindows(candidates: seq<string>, attempt: string) returns (r: seq<string>)
    ensures r == candidates + Windows(attempt)
  {
    r := candidates;
    var numChars := MIN_PLATE_LENGTH;
    while numChars <= MAX_PLATE_LENGTH
      invariant MIN_PLATE_LENGTH <= numChars <= MAX_PLATE_LENGTH + 1
      invariant r == candidates + WindowsBelow(attempt, numChars)
    {
      r := r + WindowsOfLength(attempt, numChars);
      numChars := numChars + 1;
    }
  }

  /** One pass of the `for c in candidates` loop: adds each regex match to
      the set, skipping candidates without one. */
  method CollectMatches(found: seq<string>, candidates: seq<string>) returns (r: seq<string>)
    ensures r == AddMatches(found, candidates)
  {
    r := found;
    var k := 0;
    while k < |candidates|
      invariant 0 <= k <= |candidates|
      invariant r == AddMatches(found, candidates[..k])
    {
      assert candidates[..k + 1][..k] == candidates[..k];
      match Search(Upper(candidates[k])) {
        case Some(m) =>
          if m !in r {
            r := r + [m];
          }
        case None =>
      }
      k := k + 1;
    }
    assert candidates[..k] == candidates;
  }

  /** get_valid_plates: both attempts, then the sort by length. */
  method GetValidPlates(detection: string) returns (plates: seq<string>)
    ensures plates == ValidPlates(detection)
  {
    if |detection| == 0 {
      return [];
    }
    var candidates := AppendWindows([], detection);
    assert candidates == Windows(detection);
    var validSet := CollectMatches([], candidates);
    candidates := AppendWindows(candidates, AltRepresentation(detection));
    validSet := CollectMatches(validSet, candidates);
    plates := SortDesc(validSet, Length);
  }

  /** c is the n characters of s starting at index i. */
  predicate SliceAt(s: string, c: string, i: nat, n: nat) {
    i + n <= |s| && c == s[i..i + n]
  }

  /** A window is exactly a slice of 3 to 6 consecutive characters. */
  lemma {:induction false} WindowsBelowMembers(s: string, m: nat, c: string)
    requires m >= MIN_PLATE_LENGTH
    ensures c in WindowsBelow(s, m) <==>
      exists i: nat, n: nat :: MIN_PLATE_LENGTH <= n < m && SliceAt(s, c, i, n)
    decreases m
  {
    if m > MIN_PLATE_LENGTH {
      WindowsBelowMembers(s, m - 1, c);
      var w := WindowsOfLength(s, m - 1);
      assert c in WindowsBelow(s, m) <==> c in WindowsBelow(s, m - 1) || c in w;
      if c in w {
        var k :| 0 <= k < |w| && w[k] == c;
        assert SliceAt(s, c, k, m - 1);
      }
      if exists i: nat, n: nat :: MIN_PLATE_LENGTH <= n < m && SliceAt(s, c, i, n) {
        var i: nat, n: nat :| MIN_PLATE_LENGTH <= n < m && SliceAt(s, c, i, n);
        if n == m - 1 {
          assert w[i] == c;
        }
      }
    }
  }

  lemma WindowsMembers(s: string, c: string)
    ensures c in Windows(s) <==>
      exists i: nat, n: nat :: MIN_PLATE_LENGTH <= n <= MAX_PLATE_LENGTH && SliceAt(s, c, i, n)
  {
    WindowsBelowMembers(s, MAX_PLATE_LENGTH + 1, c);
  }

  /** Some candidate in cs upper-cases to a string whose regex search finds p. */
  predicate MatchedBy(p: string, cs: seq<string>) {
    exists c :: c in cs && Search(Upper(c)) == Some(p)
  }

  lemma {:induction false} AddMatchesMembers(found: seq<string>, cs: seq<string>, p: string)
    ensures p in AddMatches(found, cs) <==> p in found || MatchedBy(p, cs)
    decreases |cs|
  {
    if cs != [] {
      var init, last := cs[..|cs| - 1], cs[|cs| - 1];
      assert cs == init + [last];
      AddMatchesMembers(found, init, p);
      if MatchedBy(p, init) {
        var c :| c in init && Search(Upper(c)) == Some(p);
        assert c in cs;
      }
      if MatchedBy(p, cs) && !MatchedBy(p, init) {
        var c :| c in cs && Search(Upper(c)) == Some(p);
        assert c == last;
      }
    }
  }

  lemma {:induction false} AddMatchesDistinct(found: seq<string>, cs: seq<string>)
    requires Distinct(found)
    ensures Distinct(AddMatches(found, cs))
    decreases |cs|
  {
    if cs != [] {
      AddMatchesDistinct(found, cs[..|cs| - 1]);
      var f := AddMatches(found, cs[..|cs| - 1]);
      match Search(Upper(cs[|cs| - 1]))
      case Some(m) =>
        if m !in f {
          var g := f + [m];
          forall i, j | 0 <= i < j < |g| ensures g[i] != g[j] {
            if j == |f| {
              assert g[i] == f[i];
            }
          }
        }
      case None =>
    }
  }

  lemma {:induction false} DistinctCountsAtMostOne<T>(s: seq<T>, x: T)
    requires Distinct(s)
    ensures multiset(s)[x] <= 1
    decreases |s|
  {
    if s != [] {
      var tail := s[1..];
      assert s == [s[0]] + tail;
      assert Distinct(tail) by {
        forall i, j | 0 <= i < j < |tail| ensures tail[i] != tail[j] {
          assert tail[i] == s[i + 1] && tail[j] == s[j + 1];
        }
      }
      DistinctCountsAtMostOne(tail, x);
      assert s[0] !in tail by {
        forall k | 0 <= k < |tail| ensures tail[k] != s[0] {
          assert tail[k] == s[k + 1];
        }
      }
    }
  }

  lemma RepeatCountsTwice<T>(t: seq<T>, i: nat, j: nat)
    requires i < j < |t|
    ensures t[i] == t[j] ==> multiset(t)[t[i]] >= 2
  {
    assert t == t[..j] + t[j..];
    assert t[i] == t[..j][i];
    assert t[j] == t[j..][0];
  }

  /** A rearrangement of a duplicate-free sequence is duplicate-free. */
  lemma PermutationKeepsDistinct<T>(s: seq<T>, t: seq<T>)
    requires multiset(s) == multiset(t) && Distinct(s)
    ensures Distinct(t)
  {
    forall i, j | 0 <= i < j < |t| ensures t[i] != t[j] {
      RepeatCountsTwice(t, i, j);
      DistinctCountsAtMostOne(s, t[i]);
    }
  }

  /** The matches before sorting. */
  function UnsortedValidPlates(detection: string): seq<string> {
    var firstPass := Windows(detection);
    AddMatches(AddMatches([], firstPass), firstPass + Windows(AltRepresentation(detection)))
  }

  /** get_valid_plates returns nothing for empty text; otherwise it returns
      exactly the regex matches of the upper-cased windows of the text and of
      its repaired form. */
  lemma ValidPlatesMembers(detection: string, p: string)
    ensures detection == [] ==> ValidPlates(detection) == []
    ensures p in ValidPlates(detection) <==>
      detection != [] && MatchedBy(p, Windows(detection) + Windows(AltRepresentation(detection)))
  {
    if detection != [] {
      var w := Windows(detection);
      var u := UnsortedValidPlates(detection);
      assert ValidPlates(detection) == SortDesc(u, Length);
      SortDescSortedPermutation(u, Length);
      assert p in ValidPlates(detection) <==> p in multiset(u);
      AddMatchesMembers([], w, p);
      AddMatchesMembers(AddMatches([], w), w + Windows(AltRepresentation(detection)), p);
      if MatchedBy(p, w) {
        var c :| c in w && Search(Upper(c)) == Some(p);
        assert c in w + Windows(AltRepresentation(detection));
      }
    }
  }

  /** Each plate is returned once, longest first. */
  lemma ValidPlatesDistinctSorted(detection: string)
    ensures Distinct(ValidPlates(detection))
    ensures NonIncreasing(ValidPlates(detection), Length)
  {
    if detection != [] {
      var w := Windows(detection);
      var u := UnsortedValidPlates(detection);
      AddMatchesDistinct([], w);
      AddMatchesDistinct(AddMatches([], w), w + Windows(AltRepresentation(detection)));
      SortDescSortedPermutation(u, Length);
      PermutationKeepsDistinct(u, SortDesc(u, Length));
    }
  }

  /** Each plate is a whole-pattern match: 3 to 6 characters, a valid first
      character, one or two letters, then digits starting with 1-9. */
  lemma ValidPlatesShape(detection: string)
    ensures forall p :: p in ValidPlates(detection) ==> MatchesPlateGrammar(p)
  {
    forall p | p in ValidPlates(detection) ensures MatchesPlateGrammar(p) {
      ValidPlatesMembers(detection, p);
      var c :| c in Windows(detection) + Windows(AltRepresentation(detection)) && Search(Upper(c)) == Some(p);
      SearchIsLeftmostMatch(Upper(c));
    }
  }

  // Examples from the unit tests, which compare the sorted outputs.

  /** A search over a string the pattern matches whole from its start returns it whole. */
  lemma SearchWhole(s: string)
    requires MatchAt(s, 0) == Some(|s|) && |s| > 0
    ensures Search(s) == Some(s)
  {
    assert SearchFrom(s, 0) == Some((0, |s|));
    assert s[0..|s|] == s;
  }

  /** The windows, grouped by length. */
  lemma WindowsByLength(s: string)
    ensures Windows(s) == WindowsOfLength(s, 3) + WindowsOfLength(s, 4)
                          + WindowsOfLength(s, 5) + WindowsOfLength(s, 6)
  {
    assert WindowsBelow(s, 4) == WindowsOfLength(s, 3);
    assert WindowsBelow(s, 5) == WindowsOfLength(s, 3) + WindowsOfLength(s, 4);
    assert WindowsBelow(s, 6) == WindowsOfLength(s, 3) + WindowsOfLength(s, 4) + WindowsOfLength(s, 5);
  }

  /** Upper-casing leaves every window of a text of capitals and digits alone. */
  lemma UpperKeepsWindows(d: string)
    requires CapitalsAndDigits(d)
    ensures forall c :: c in Windows(d) ==> Upper(c) == c
  {
    forall c | c in Windows(d) ensures Upper(c) == c {
      WindowsMembers(d, c);
      var i: nat, n: nat :| MIN_PLATE_LENGTH <= n <= MAX_PLATE_LENGTH && SliceAt(d, c, i, n);
      assert forall k :: 0 <= k < |c| ==> c[k] == d[i + k];
      UpperKeepsCapitalsAndDigits(c);
    }
  }

  /** The search finds nothing in a candidate, or finds a member of e. */
  predicate YieldsWithin(ws: seq<string>, e: set<string>) {
    forall c :: c in ws ==> Search(c).None? || Search(c).value in e
  }

  /** Every member of e is what the search finds in some candidate. */
  predicate YieldsAll(ws: seq<string>, e: set<string>) {
    forall p :: p in e ==> exists c :: c in ws && Search(c) == Some(p)
  }

  /** For a text of capitals and digits whose repaired form is too, knowing
      what the search finds in each candidate window settles the set
      get_valid_plates returns. */
  lemma ValidPlatesFromWindows(d: string, e: set<string>)
    requires d != [] && CapitalsAndDigits(d) && CapitalsAndDigits(AltRepresentation(d))
    requires YieldsWithin(Windows(d) + Windows(AltRepresentation(d)), e)
    requires YieldsAll(Windows(d) + Windows(AltRepresentation(d)), e)
    ensures forall p :: p in ValidPlates(d) <==> p in e
    ensures Distinct(ValidPlates(d))
    ensures e == {} ==> ValidPlates(d) == []
  {
    UpperKeepsWindows(d);
    UpperKeepsWindows(AltRepresentation(d));
    forall p ensures p in ValidPlates(d) <==> p in e {
      ValidPlatesMembers(d, p);
      if p in e {
        var c :| c in Windows(d) + Windows(AltRepresentation(d)) && Search(c) == Some(p);
        assert Search(Upper(c)) == Some(p);
      }
    }
    ValidPlatesDistinctSorted(d);
    assert ValidPlates(d) != [] ==> ValidPlates(d)[0] in ValidPlates(d);
  }

  lemma WindowsOfABC123()
    ensures Windows("ABC123") == ABC123Windows
  {
    assert WindowsOfLength("ABC123", 3) == ["ABC", "BC1", "C12", "123"] by {
      assert "ABC123"[0..3] == "ABC";
      assert "ABC123"[1..4] == "BC1";
      assert "ABC123"[2..5] == "C12";
      assert "ABC123"[3..6] == "123";
    }
    assert WindowsOfLength("ABC123", 4) == ["ABC1", "BC12", "C123"] by {
      assert "ABC123"[0..4] == "ABC1";
      assert "ABC123"[1..5] == "BC12";
      assert "ABC123"[2..6] == "C123";
    }
    assert WindowsOfLength("ABC123", 5) == ["ABC12", "BC123"] by {
      assert "ABC123"[0..5] == "ABC12";
      assert "ABC123"[1..6] == "BC123";
    }
    assert WindowsOfLength("ABC123", 6) == ["ABC123"] by {
      assert "ABC123"[0..6] == "ABC123";
    }
    WindowsByLength("ABC123");
  }

  lemma SearchesOfABC123()
    ensures forall c :: c in ["ABC", "C12", "123", "C123"] ==> Search(c).None?
    ensures Search("BC1") == Some("BC1")
    ensures Search("ABC1") == Some("ABC1")
    ensures Search("BC12") == Some("BC12")
    ensures Search("ABC12") == Some("ABC12")
    ensures Search("BC123") == Some("BC123")
    ensures Search("ABC123") == Some("ABC123")
  {
    SearchWhole("BC1");
    SearchWhole("ABC1");
    SearchWhole("BC12");
    SearchWhole("ABC12");
    SearchWhole("BC123");
    SearchWhole("ABC123");
  }

  /** The plates the reader's unit test expects from "ABC123". */
  const PlatesOfABC123: set<string> := {"ABC123", "ABC12", "BC123", "ABC1", "BC12", "BC1"}

  /** The candidate windows of "ABC123", shortest first. */
  const ABC123Windows: seq<string> := ["ABC", "BC1", "C12", "123", "ABC1", "BC12", "C123", "ABC12", "BC123", "ABC123"]

  lemma YieldsOfABC123()
    ensures YieldsWithin(ABC123Windows + ABC123Windows, PlatesOfABC123)
    ensures YieldsAll(ABC123Windows + ABC123Windows, PlatesOfABC123)
  {
    var ws := ABC123Windows + ABC123Windows;
    SearchesOfABC123();
    forall c | c in ws ensures Search(c).None? || Search(c).value in PlatesOfABC123 {
      assert c in ABC123Windows;
    }
    forall p | p in PlatesOfABC123 ensures exists c :: c in ws && Search(c) == Some(p) {
      assert p in ABC123Windows && Search(p) == Some(p);
      assert p in ws;
    }
  }

  lemma CandidatesOfABC123()
    ensures CapitalsAndDigits("ABC123") && CapitalsAndDigits(AltRepresentation("ABC123"))
    ensures Windows("ABC123") + Windows(AltRepresentation("ABC123")) == ABC123Windows + ABC123Windows
  {
    AltRepresentationKeepsABC123();
    WindowsOfABC123();
  }

  /** "ABC123" yields ABC123, ABC12, BC123, ABC1, BC12 and BC1, each once. */
  lemma ValidPlatesOfABC123(d: string)
    requires d == "ABC123"
    ensures forall p :: p in ValidPlates(d) <==> p in PlatesOfABC123
    ensures Distinct(ValidPlates(d))
  {
    CandidatesOfABC123();
    YieldsOfABC123();
    ValidPlatesFromWindows(d, PlatesOfABC123);
  }

  lemma AltRepresentationOfA023()
    ensures AltRepresentation("A023") == "AO23"
  {
    AltRepresentationAt("A023");
    assert "A023"[..3][1] == '0';
    assert "A023"[..3] == "A02" && "A023"[3..] == "3";
  }

  lemma WindowsOfA023()
    ensures Windows("A023") ==
      ["A02", "023", "A023"]
  {
    assert WindowsOfLength("A023", 3) == ["A02", "023"] by {
      assert "A023"[0..3] == "A02";
      assert "A023"[1..4] == "023";
    }
    assert WindowsOfLength("A023", 4) == ["A023"] by {
      assert "A023"[0..4] == "A023";
    }
    assert WindowsOfLength("A023", 5) == [];
    assert WindowsOfLength("A023", 6) == [];
    WindowsByLength("A023");
  }

  lemma WindowsOfAO23()
    ensures Windows("AO23") ==
      ["AO2", "O23", "AO23"]
  {
    assert WindowsOfLength("AO23", 3) == ["AO2", "O23"] by {
      assert "AO23"[0..3] == "AO2";
      assert "AO23"[1..4] == "O23";
    }
    assert WindowsOfLength("AO23", 4) == ["AO23"] by {
      assert "AO23"[0..4] == "AO23";
    }
    assert WindowsOfLength("AO23", 5) == [];
    assert WindowsOfLength("AO23", 6) == [];
    WindowsByLength("AO23");
  }

  lemma SearchesOfA023()
    ensures forall c :: c in ["A02", "023", "A023", "O23"] ==> Search(c).None?
    ensures Search("AO2") == Some("AO2")
    ensures Search("AO23") == Some("AO23")
  {
    SearchWhole("AO2");
    SearchWhole("AO23");
  }

  /** The plates the reader's unit test expects from "A023". */
  const PlatesOfA023: set<string> := {"AO23", "AO2"}

  lemma YieldsOfA023()
    ensures YieldsWithin(["A02", "023", "A023", "AO2", "O23", "AO23"], PlatesOfA023)
    ensures YieldsAll(["A02", "023", "A023", "AO2", "O23", "AO23"], PlatesOfA023)
  {
    SearchesOfA023();
    forall p | p in PlatesOfA023 ensures exists c :: c in ["A02", "023", "A023", "AO2", "O23", "AO23"] && Search(c) == Some(p) {
      assert p in ["A02", "023", "A023", "AO2", "O23", "AO23"];
    }
  }

  lemma CandidatesOfA023()
    ensures CapitalsAndDigits("A023") && CapitalsAndDigits(AltRepresentation("A023"))
    ensures Windows("A023") + Windows(AltRepresentation("A023")) == ["A02", "023", "A023", "AO2", "O23", "AO23"]
  {
    AltRepresentationOfA023();
    WindowsOfA023();
    WindowsOfAO23();
  }

  /** "A023" is read as "AO23" and yields AO23 and AO2. */
  lemma ValidPlatesOfA023(d: string)
    requires d == "A023"
    ensures forall p :: p in ValidPlates(d) <==> p in PlatesOfA023
    ensures Distinct(ValidPlates(d))
  {
    CandidatesOfA023();
    YieldsOfA023();
    ValidPlatesFromWindows(d, PlatesOfA023);
  }

  lemma AltRepresentationOfDA123()
    ensures AltRepresentation("DA123") == "DA123"
  {
    assert "DA123"[..3] == "DA1" && "DA123"[3..] == "23";
  }

  lemma WindowsOfDA123()
    ensures Windows("DA123") ==
      ["DA1", "A12", "123", "DA12", "A123", "DA123"]
  {
    assert WindowsOfLength("DA123", 3) == ["DA1", "A12", "123"] by {
      assert "DA123"[0..3] == "DA1";
      assert "DA123"[1..4] == "A12";
      assert "DA123"[2..5] == "123";
    }
    assert WindowsOfLength("DA123", 4) == ["DA12", "A123"] by {
      assert "DA123"[0..4] == "DA12";
      assert "DA123"[1..5] == "A123";
    }
    assert WindowsOfLength("DA123", 5) == ["DA123"] by {
      assert "DA123"[0..5] == "DA123";
    }
    assert WindowsOfLength("DA123", 6) == [];
    WindowsByLength("DA123");
  }

  lemma SearchesOfDA123()
    ensures forall c :: c in ["DA1", "A12", "123", "DA12", "A123", "DA123"] ==> Search(c).None?
  {
  }

  lemma YieldsOfDA123()
    ensures YieldsWithin(["DA1", "A12", "123", "DA12", "A123", "DA123", "DA1", "A12", "123", "DA12", "A123", "DA123"], {})
  {
    SearchesOfDA123();
  }

  lemma CandidatesOfDA123()
    ensures CapitalsAndDigits("DA123") && CapitalsAndDigits(AltRepresentation("DA123"))
    ensures Windows("DA123") + Windows(AltRepresentation("DA123")) == ["DA1", "A12", "123", "DA12", "A123", "DA123", "DA1", "A12", "123", "DA12", "A123", "DA123"]
  {
    AltRepresentationOfDA123();
    WindowsOfDA123();
  }

  /** D cannot start a plate, so "DA123" yields nothing. */
  lemma ValidPlatesOfDA123(d: string)
    requires d == "DA123"
    ensures ValidPlates(d) == []
  {
    CandidatesOfDA123();
    YieldsOfDA123();
    ValidPlatesFromWindows(d, {});
  }

  lemma AltRepresentationOfPA123()
    ensures AltRepresentation("PA123") == "PA123"
  {
    assert "PA123"[..3] == "PA1" && "PA123"[3..] == "23";
  }

  lemma WindowsOfPA123()
    ensures Windows("PA123") ==
      ["PA1", "A12", "123", "PA12", "A123", "PA123"]
  {
    assert WindowsOfLength("PA123", 3) == ["PA1", "A12", "123"] by {
      assert "PA123"[0..3] == "PA1";
      assert "PA123"[1..4] == "A12";
      assert "PA123"[2..5] == "123";
    }
    assert WindowsOfLength("PA123", 4) == ["PA12", "A123"] by {
      assert "PA123"[0..4] == "PA12";
      assert "PA123"[1..5] == "A123";
    }
    assert WindowsOfLength("PA123", 5) == ["PA123"] by {
      assert "PA123"[0..5] == "PA123";
    }
    assert WindowsOfLength("PA123", 6) == [];
    WindowsByLength("PA123");
  }

  lemma SearchesOfPA123()
    ensures forall c :: c in ["PA1", "A12", "123", "PA12", "A123", "PA123"] ==> Search(c).None?
  {
  }

  lemma YieldsOfPA123()
    ensures YieldsWithin(["PA1", "A12", "123", "PA12", "A123", "PA123", "PA1", "A12", "123", "PA12", "A123", "PA123"], {})
  {
    SearchesOfPA123();
  }

  lemma CandidatesOfPA123()
    ensures CapitalsAndDigits("PA123") && CapitalsAndDigits(AltRepresentation("PA123"))
    ensures Windows("PA123") + Windows(AltRepresentation("PA123")) == ["PA1", "A12", "123", "PA12", "A123", "PA123", "PA1", "A12", "123", "PA12", "A123", "PA123"]
  {
    AltRepresentationOfPA123();
    WindowsOfPA123();
  }

  /** P cannot start a plate, so "PA123" yields nothing. */
  lemma ValidPlatesOfPA123(d: string)
    requires d == "PA123"
    ensures ValidPlates(d) == []
  {
    CandidatesOfPA123();
    YieldsOfPA123();
    ValidPlatesFromWindows(d, {});
  }

  lemma AltRepresentationOfWA123()
    ensures AltRepresentation("WA123") == "WA123"
  {
    assert "WA123"[..3] == "WA1" && "WA123"[3..] == "23";
  }

  lemma WindowsOfWA123()
    ensures Windows("WA123") ==
      ["WA1", "A12", "123", "WA12", "A123", "WA123"]
  {
    assert WindowsOfLength("WA123", 3) == ["WA1", "A12", "123"] by {
      assert "WA123"[0..3] == "WA1";
      assert "WA123"[1..4] == "A12";
      assert "WA123"[2..5] == "123";
    }
    assert WindowsOfLength("WA123", 4) == ["WA12", "A123"] by {
      assert "WA123"[0..4] == "WA12";
      assert "WA123"[1..5] == "A123";
    }
    assert WindowsOfLength("WA123", 5) == ["WA123"] by {
      assert "WA123"[0..5] == "WA123";
    }
    assert WindowsOfLength("WA123", 6) == [];
    WindowsByLength("WA123");
  }

  lemma SearchesOfWA123()
    ensures forall c :: c in ["WA1", "A12", "123", "WA12", "A123", "WA123"] ==> Search(c).None?
  {
  }

  lemma YieldsOfWA123()
    ensures YieldsWithin(["WA1", "A12", "123", "WA12", "A123", "WA123", "WA1", "A12", "123", "WA12", "A123", "WA123"], {})
  {
    SearchesOfWA123();
  }

  lemma CandidatesOfWA123()
    ensures CapitalsAndDigits("WA123") && CapitalsAndDigits(AltRepresentation("WA123"))
    ensures Windows("WA123") + Windows(AltRepresentation("WA123")) == ["WA1", "A12", "123", "WA12", "A123", "WA123", "WA1", "A12", "123", "WA12", "A123", "WA123"]
  {
    AltRepresentationOfWA123();
    WindowsOfWA123();
  }

  /** W cannot start a plate, so "WA123" yields nothing. */
  lemma ValidPlatesOfWA123(d: string)
    requires d == "WA123"
    ensures ValidPlates(d) == []
  {
    CandidatesOfWA123();
    YieldsOfWA123();
    ValidPlatesFromWindows(d, {});
  }

  lemma AltRepresentationOfABC012()
    ensures AltRepresentation("ABC012") == "ABC012"
  {
    assert "ABC012"[..3] == "ABC" && "ABC012"[3..] == "012";
  }

  lemma WindowsOfABC012()
    ensures Windows("ABC012") ==
      ["ABC", "BC0", "C01", "012", "ABC0", "BC01", "C012", "ABC01", "BC012", "ABC012"]
  {
    assert WindowsOfLength("ABC012", 3) == ["ABC", "BC0", "C01", "012"] by {
      assert "ABC012"[0..3] == "ABC";
      assert "ABC012"[1..4] == "BC0";
      assert "ABC012"[2..5] == "C01";
      assert "ABC012"[3..6] == "012";
    }
    assert WindowsOfLength("ABC012", 4) == ["ABC0", "BC01", "C012"] by {
      assert "ABC012"[0..4] == "ABC0";
      assert "ABC012"[1..5] == "BC01";
      assert "ABC012"[2..6] == "C012";
    }
    assert WindowsOfLength("ABC012", 5) == ["ABC01", "BC012"] by {
      assert "ABC012"[0..5] == "ABC01";
      assert "ABC012"[1..6] == "BC012";
    }
    assert WindowsOfLength("ABC012", 6) == ["ABC012"] by {
      assert "ABC012"[0..6] == "ABC012";
    }
    WindowsByLength("ABC012");
  }

  lemma SearchesOfABC012()
    ensures forall c :: c in ["ABC", "BC0", "C01", "012", "ABC0", "BC01", "C012", "ABC01", "BC012", "ABC012"] ==> Search(c).None?
  {
  }

  lemma YieldsOfABC012()
    ensures YieldsWithin(["ABC", "BC0", "C01", "012", "ABC0", "BC01", "C012", "ABC01", "BC012", "ABC012", "ABC", "BC0", "C01", "012", "ABC0", "BC01", "C012", "ABC01", "BC012", "ABC012"], {})
  {
    SearchesOfABC012();
  }

  lemma CandidatesOfABC012()
    ensures CapitalsAndDigits("ABC012") && CapitalsAndDigits(AltRepresentation("ABC012"))
    ensures Windows("ABC012") + Windows(AltRepresentation("ABC012")) == ["ABC", "BC0", "C01", "012", "ABC0", "BC01", "C012", "ABC01", "BC012", "ABC012", "ABC", "BC0", "C01", "012", "ABC0", "BC01", "C012", "ABC01", "BC012", "ABC012"]
  {
    AltRepresentationOfABC012();
    WindowsOfABC012();
  }

  /** A digit run may not start with 0, so "ABC012" yields nothing. */
  lemma ValidPlatesOfABC012(d: string)
    requires d == "ABC012"
    ensures ValidPlates(d) == []
  {
    CandidatesOfABC012();
    YieldsOfABC012();
    ValidPlatesFromWindows(d, {});
  }

  lemma AltRepresentationOfABC()
    ensures AltRepresentation("ABC") == "ABC"
  {
  }

  lemma WindowsOfABC()
    ensures Windows("ABC") ==
      ["ABC"]
  {
    assert WindowsOfLength("ABC", 3) == ["ABC"] by {
      assert "ABC"[0..3] == "ABC";
    }
    assert WindowsOfLength("ABC", 4) == [];
    assert WindowsOfLength("ABC", 5) == [];
    assert WindowsOfLength("ABC", 6) == [];
    WindowsByLength("ABC");
  }

  lemma SearchesOfABC()
    ensures forall c :: c in ["ABC"] ==> Search(c).None?
  {
  }

  lemma YieldsOfABC()
    ensures YieldsWithin(["ABC", "ABC"], {})
  {
    SearchesOfABC();
  }

  lemma CandidatesOfABC()
    ensures CapitalsAndDigits("ABC") && CapitalsAndDigits(AltRepresentation("ABC"))
    ensures Windows("ABC") + Windows(AltRepresentation("ABC")) == ["ABC", "ABC"]
  {
    AltRepresentationOfABC();
    WindowsOfABC();
  }

  /** Three letters without a digit yield nothing. */
  lemma ValidPlatesOfABC(d: string)
    requires d == "ABC"
    ensures ValidPlates(d) == []
  {
    CandidatesOfABC();
    YieldsOfABC();
    ValidPlatesFromWindows(d, {});
  }

  lemma AltRepresentationOf123()
    ensures AltRepresentation("123") == "123"
  {
  }

  lemma WindowsOf123()
    ensures Windows("123") ==
      ["123"]
  {
    assert WindowsOfLength("123", 3) == ["123"] by {
      assert "123"[0..3] == "123";
    }
    assert WindowsOfLength("123", 4) == [];
    assert WindowsOfLength("123", 5) == [];
    assert WindowsOfLength("123", 6) == [];
    WindowsByLength("123");
  }

  lemma SearchesOf123()
    ensures forall c :: c in ["123"] ==> Search(c).None?
  {
  }

  lemma YieldsOf123()
    ensures YieldsWithin(["123", "123"], {})
  {
    SearchesOf123();
  }

  lemma CandidatesOf123()
    ensures CapitalsAndDigits("123") && CapitalsAndDigits(AltRepresentation("123"))
    ensures Windows("123") + Windows(AltRepresentation("123")) == ["123", "123"]
  {
    AltRepresentationOf123();
    WindowsOf123();
  }

  /** Digits alone yield nothing. */
  lemma ValidPlatesOf123(d: string)
    requires d == "123"
    ensures ValidPlates(d) == []
  {
    CandidatesOf123();
    YieldsOf123();
    ValidPlatesFromWindows(d, {});
  }

  // ---------------------------------------------------------------------
  // rm_duplicates_1edit_away
  // ---------------------------------------------------------------------

  predicate NonEmptyTexts(s: seq<string>) {
    forall i :: 0 <= i < |s| ==> |s[i]| > 0
  }

  /** c absorbs p when c begins with an alphabetic character and is at most
      one edit away from p.  Labels of unknown objects begin with `[`, so
      they never absorb anything. */
  predicate Absorbs(c: string, p: string) {
    |c| > 0 && IsAlpha(c[0]) && Distance(p, c) <= 1
  }

  predicate AbsorbedBy(p: string, cs: seq<string>) {
    exists c :: c in cs && Absorbs(c, p)
  }

  /** The greedy pass over a list already in order: each plate is kept
      unless a plate kept before it, or a previously seen plate, absorbs it. */
  function Greedy(s: seq<string>, prev: seq<string>): seq<string> {
    if s == [] then []
    else
      var kept := Greedy(s[..|s| - 1], prev);
      if AbsorbedBy(s[|s| - 1], kept + prev) then kept else kept + [s[|s| - 1]]
  }

  /** What rm_duplicates_1edit_away returns: the greedy pass over the plates
      stably sorted longest first. */
  function RmDuplicates(plates: seq<string>, prev: seq<string>): seq<string> {
    Greedy(SortDesc(plates, Length), prev)
  }

  /** The inner `for c in clusters_list + prev_plates` loop, which stops at
      the first plate that absorbs p. */
  method FindAbsorber(p: string, candidates: seq<string>) returns (found: bool)
    requires NonEmptyTexts(candidates)
    ensures found <==> AbsorbedBy(p, candidates)
  {
    found := false;
    var j := 0;
    while j < |candidates| && !found
      invariant 0 <= j <= |candidates|
      invariant found ==> AbsorbedBy(p, candidates)
      invariant !found ==> forall i :: 0 <= i < j ==> !Absorbs(candidates[i], p)
    {
      var c := candidates[j];
      WithinOneEditIffDistanceAtMostOne(p, c);
      if IsAlpha(c[0]) && WithinOneEdit(p, c) {
        assert c in candidates && Absorbs(c, p);
        found := true;
      }
      j := j + 1;
    }
    if !found {
      forall c | c in candidates ensures !Absorbs(c, p) {
        var i :| 0 <= i < |candidates| && candidates[i] == c;
      }
    }
  }

  /** `list.sort(key=len, reverse=True)` on the caller's list. */
  method SortByLengthDesc(plates: array<string>)
    modifies plates
    ensures plates[..] == SortDesc(old(plates[..]), Length)
  {
    var sorted := SortDesc(plates[..], Length);
    forall i | 0 <= i < plates.Length {
      plates[i] := sorted[i];
    }
  }

  /** Sorting keeps every text non-empty. */
  lemma SortKeepsNonEmpty(s: seq<string>)
    requires NonEmptyTexts(s)
    ensures NonEmptyTexts(SortDesc(s, Length))
  {
    var sorted := SortDesc(s, Length);
    SortDescSortedPermutation(s, Length);
    forall i | 0 <= i < |sorted| ensures |sorted[i]| > 0 {
      assert sorted[i] in multiset(s);
    }
  }

  /** One more plate for the greedy pass. */
  lemma GreedyPrefixStep(s: seq<string>, prev: seq<string>, k: nat)
    requires k < |s|
    ensures Greedy(s[..k + 1], prev) ==
      if AbsorbedBy(s[k], Greedy(s[..k], prev) + prev) then Greedy(s[..k], prev)
      else Greedy(s[..k], prev) + [s[k]]
  {
    assert s[..k + 1][..k] == s[..k] && s[..k + 1][k] == s[k];
  }

  /** rm_duplicates_1edit_away: sorts the caller's list in place, then keeps
      the plates nothing earlier absorbs.  Indexing `c[0]` fails on an empty
      text, hence the precondition. */
  method RmDuplicates1EditAway(plates: array<string>, prev: seq<string>) returns (clusters: seq<string>)
    requires NonEmptyTexts(plates[..]) && NonEmptyTexts(prev)
    modifies plates
    ensures plates[..] == SortDesc(old(plates[..]), Length)
    ensures clusters == Greedy(plates[..], prev)
  {
    SortKeepsNonEmpty(plates[..]);
    SortByLengthDesc(plates);
    clusters := [];
    for k := 0 to plates.Length
      invariant plates[..] == SortDesc(old(plates[..]), Length)
      invariant clusters == Greedy(plates[..k], prev)
      invariant NonEmptyTexts(clusters)
    {
      var p := plates[k];
      assert |p| > 0 by { assert p == plates[..][k]; }
      var found := FindAbsorber(p, clusters + prev);
      GreedyPrefixStep(plates[..], prev, k);
      if !found {
        clusters := clusters + [p];
      }
    }
    assert plates[..plates.Length] == plates[..];
  }

  lemma {:induction false} GreedyKeepsFromInput(s: seq<string>, prev: seq<string>)
    ensures forall x :: x in Greedy(s, prev) ==> x in s
  {
    if s != [] {
      GreedyKeepsFromInput(s[..|s| - 1], prev);
    }
  }

  /** a occurs in b in order, possibly with gaps. */
  predicate IsSubseq<T(==)>(a: seq<T>, b: seq<T>)
    decreases |b|
  {
    a == [] || (b != [] && if a[0] == b[0] then IsSubseq(a[1..], b[1..]) else IsSubseq(a, b[1..]))
  }

  lemma {:induction false} SubseqExtend<T>(a: seq<T>, b: seq<T>, x: T)
    requires IsSubseq(a, b)
    ensures IsSubseq(a, b + [x]) && IsSubseq(a + [x], b + [x])
    decreases |b|
  {
    if b == [] {
      assert a == [];
      assert ([x] + [])[1..] == [];
    } else {
      assert (b + [x])[1..] == b[1..] + [x];
      if a == [] {
        SubseqEmpty(b + [x]);
        assert IsSubseq([x], [x]);
        SubseqExtend([], b[1..], x);
      } else {
        assert (a + [x])[1..] == a[1..] + [x];
        if a[0] == b[0] {
          SubseqExtend(a[1..], b[1..], x);
        } else {
          SubseqExtend(a, b[1..], x);
        }
      }
    }
  }

  lemma SubseqEmpty<T>(b: seq<T>)
    ensures IsSubseq([], b)
  {
  }

  /** The result is a subsequence of the input. */
  lemma {:induction false} GreedySubsequence(s: seq<string>, prev: seq<string>)
    ensures IsSubseq(Greedy(s, prev), s)
  {
    if s != [] {
      var init, last := s[..|s| - 1], s[|s| - 1];
      GreedySubsequence(init, prev);
      SubseqExtend(Greedy(init, prev), init, last);
      assert init + [last] == s;
    }
  }

  /** No kept plate is absorbed by a plate kept before it or by a previously
      seen plate. */
  lemma {:induction false} GreedyKeptNotAbsorbed(s: seq<string>, prev: seq<string>)
    ensures forall j :: 0 <= j < |Greedy(s, prev)| ==>
      !AbsorbedBy(Greedy(s, prev)[j], Greedy(s, prev)[..j] + prev)
  {
    if s != [] {
      var kept := Greedy(s[..|s| - 1], prev);
      GreedyKeptNotAbsorbed(s[..|s| - 1], prev);
      var r := Greedy(s, prev);
      forall j | 0 <= j < |r| ensures !AbsorbedBy(r[j], r[..j] + prev) {
        if j < |kept| {
          assert r[j] == kept[j] && r[..j] == kept[..j];
        } else {
          assert r[..j] == kept;
        }
      }
    }
  }

  /** Every dropped plate is absorbed by a kept plate or a previously seen one. */
  lemma {:induction false} GreedyDroppedAbsorbed(s: seq<string>, prev: seq<string>)
    ensures forall i :: 0 <= i < |s| && s[i] !in Greedy(s, prev) ==>
      AbsorbedBy(s[i], Greedy(s, prev) + prev)
  {
    if s != [] {
      var init := s[..|s| - 1];
      var kept := Greedy(init, prev);
      GreedyDroppedAbsorbed(init, prev);
      var r := Greedy(s, prev);
      forall i | 0 <= i < |s| && s[i] !in r ensures AbsorbedBy(s[i], r + prev) {
        var c: string;
        if i < |init| {
          assert s[i] == init[i];
          assert s[i] !in kept;
          c :| c in kept + prev && Absorbs(c, s[i]);
        } else {
          c :| c in kept + prev && Absorbs(c, s[i]);
        }
        assert c in r + prev;
      }
    }
  }

  /** Every dropped plate is absorbed by a previously seen plate or by a
      kept plate that comes before it. */
  lemma {:induction false} GreedyDroppedAbsorbedEarlier(s: seq<string>, prev: seq<string>)
    ensures forall i :: 0 <= i < |s| && s[i] !in Greedy(s, prev) ==>
      AbsorbedBy(s[i], prev) || exists j :: 0 <= j < i && s[j] in Greedy(s, prev) && Absorbs(s[j], s[i])
  {
    if s != [] {
      var init := s[..|s| - 1];
      var kept := Greedy(init, prev);
      var r := Greedy(s, prev);
      GreedyDroppedAbsorbedEarlier(init, prev);
      GreedyKeepsFromInput(init, prev);
      assert forall x :: x in kept ==> x in r;
      forall i | 0 <= i < |s| && s[i] !in r
        ensures AbsorbedBy(s[i], prev) || exists j :: 0 <= j < i && s[j] in r && Absorbs(s[j], s[i])
      {
        if i < |init| {
          assert s[i] == init[i] && s[i] !in kept;
          if !AbsorbedBy(s[i], prev) {
            var j :| 0 <= j < i && init[j] in kept && Absorbs(init[j], init[i]);
            assert s[j] == init[j];
          }
        } else if !AbsorbedBy(s[i], prev) {
          var c :| c in kept + prev && Absorbs(c, s[i]);
          assert c in kept;
          var j :| 0 <= j < |init| && init[j] == c;
          assert s[j] == c;
        }
      }
    }
  }

  /** Over a list sorted longest first, the result stays sorted. */
  lemma {:induction false} GreedyKeepsOrder(s: seq<string>, prev: seq<string>)
    requires NonIncreasing(s, Length)
    ensures NonIncreasing(Greedy(s, prev), Length)
  {
    if s != [] {
      var init := s[..|s| - 1];
      assert NonIncreasing(init, Length);
      GreedyKeepsOrder(init, prev);
      GreedyKeepsFromInput(init, prev);
      var kept := Greedy(init, prev);
      forall x | x in kept ensures |x| >= |s[|s| - 1]| {
        var i :| 0 <= i < |init| && init[i] == x;
      }
    }
  }

  /** rm_duplicates_1edit_away returns a subsequence of its input sorted
      longest first; what it keeps nothing earlier absorbs, what it drops
      something kept or seen before absorbs. */
  lemma RmDuplicatesSpec(plates: seq<string>, prev: seq<string>)
    ensures NonIncreasing(RmDuplicates(plates, prev), Length)
    ensures IsSubseq(RmDuplicates(plates, prev), SortDesc(plates, Length))
    ensures forall x :: x in RmDuplicates(plates, prev) ==> x in plates
    ensures forall j :: 0 <= j < |RmDuplicates(plates, prev)| ==>
      !AbsorbedBy(RmDuplicates(plates, prev)[j], RmDuplicates(plates, prev)[..j] + prev)
    ensures forall x :: x in plates && x !in RmDuplicates(plates, prev) ==>
      AbsorbedBy(x, RmDuplicates(plates, prev) + prev)
    ensures var s := SortDesc(plates, Length);
      forall i :: 0 <= i < |s| && s[i] !in RmDuplicates(plates, prev) ==>
        AbsorbedBy(s[i], prev) || exists j :: 0 <= j < i && s[j] in RmDuplicates(plates, prev) && Absorbs(s[j], s[i])
  {
    var sorted := SortDesc(plates, Length);
    SortDescSortedPermutation(plates, Length);
    GreedyKeepsOrder(sorted, prev);
    GreedySubsequence(sorted, prev);
    GreedyKeepsFromInput(sorted, prev);
    GreedyKeptNotAbsorbed(sorted, prev);
    GreedyDroppedAbsorbed(sorted, prev);
    GreedyDroppedAbsorbedEarlier(sorted, prev);
    forall x | x in RmDuplicates(plates, prev) ensures x in plates {
      assert x in multiset(sorted);
    }
    forall x | x in plates && x !in RmDuplicates(plates, prev)
      ensures AbsorbedBy(x, RmDuplicates(plates, prev) + prev)
    {
      assert x in multiset(sorted);
      var i :| 0 <= i < |sorted| && sorted[i] == x;
    }
  }

  // Examples from the unit tests, with no previously seen plates.  The
  // texts are parameters so that the solver does not unfold the distance
  // recurrence on literals.

  /** Two plates of equal length: the second survives unless the first absorbs it. */
  lemma RmDuplicatesOfPair(a: string, b: string)
    requires |a| == |b|
    ensures RmDuplicates([a, b], []) == if Absorbs(a, b) then [a] else [a, b]
  {
    SortDescOfSorted([a, b], Length);
    assert [a, b][..1] == [a];
    assert Greedy([a], []) == [a];
    assert AbsorbedBy(b, [a]) <==> Absorbs(a, b);
  }

  /** ABC124 is one substitution from ABC123, so only ABC123 is kept. */
  lemma RmDuplicatesDropsOneEdit(a: string, b: string)
    requires a == "ABC123" && b == "ABC124"
    ensures RmDuplicates([a, b], []) == ["ABC123"]
  {
    assert b == "ABC12" + "4" && a == "ABC12" + "3";
    WithinOneEditCommonPrefix("ABC12", "4", "3");
    WithinOneEditIffDistanceAtMostOne(b, a);
    RmDuplicatesOfPair(a, b);
  }

  /** Sorting comes first: given ABC12 before ABC123, the longer plate is
      kept and absorbs the shorter one. */
  lemma RmDuplicatesKeepsLonger(a: string, b: string)
    requires a == "ABC12" && b == "ABC123"
    ensures RmDuplicates([a, b], []) == ["ABC123"]
  {
    assert |a| == 5 && |b| == 6;
    assert [a, b][1..] == [b] && [b][1..] == [];
    assert SortDesc([b], Length) == [b];
    assert SortDesc([a, b], Length) == Insert(a, [b], Length) == [b, a];
    assert a == "ABC12" + "" && b == "ABC12" + "3";
    WithinOneEditCommonPrefix("ABC12", "", "3");
    WithinOneEditIffDistanceAtMostOne(a, b);
    assert [b, a][..1] == [b];
    assert Greedy([b], []) == [b];
    assert Absorbs(b, a);
    assert AbsorbedBy(a, [b] + []);
  }

  /** ABC135 is two substitutions from ABC123, so both are kept. */
  lemma RmDuplicatesKeepsTwoEdits(a: string, b: string)
    requires a == "ABC123" && b == "ABC135"
    ensures RmDuplicates([a, b], []) == ["ABC123", "ABC135"]
  {
    assert b == "ABC1" + "35" && a == "ABC1" + "23";
    assert !WithinOneEdit("35", "23") by {
      assert "35"[1..] == "5" && "23"[1..] == "3";
    }
    WithinOneEditCommonPrefix("ABC1", "35", "23");
    WithinOneEditIffDistanceAtMostOne(b, a);
    assert !Absorbs(a, b);
    RmDuplicatesOfPair(a, b);
  }

  /** Labels of unknown objects never absorb one another. */
  lemma RmDuplicatesKeepsUnknowns(a: string, b: string)
    requires a == "[UNK_CAR_100]" && b == "[UNK_CAR_101]"
    ensures RmDuplicates([a, b], []) == ["[UNK_CAR_100]", "[UNK_CAR_101]"]
  {
    assert !Absorbs(a, b) by {
      assert a[0] == '[' && !IsAlpha('[');
    }
    RmDuplicatesOfPair(a, b);
  }
}
