/**
 * The emission report (components/database/code/report.py): the cached
 * entries are aggregated into a car count, a CO2 total and counts per car
 * type and per fuel type; the cache is cleared only when sending succeeds.
 */
module Report {
  import opened Wrappers

  /** A cached entry: its id and the fields of its data. CO2 is a real;
      floating-point rounding of the sum is not modelled. */
  datatype Entry = Entry(id: int, co2: real, carType: string, gasType: string)

  /** The emissions dictionary. */
  datatype Emissions = Emissions(carCount: nat, co2: real, carTypes: map<string, nat>, gasTypes: map<string, nat>)

  /** `if not t in m: m[t] = 0` followed by `m[t] += 1`. */
  function Bump(m: map<string, nat>, t: string): map<string, nat> {
    var m1 := if t !in m then m[t := 0] else m;
    m1[t := m1[t] + 1]
  }

  /** One pass of the loop body. */
  function AddEntry(em: Emissions, e: Entry): Emissions {
    Emissions(em.carCount + 1, em.co2 + e.co2, Bump(em.carTypes, e.carType), Bump(em.gasTypes, e.gasType))
  }

  /** The emissions dictionary after the loop over the entries. */
  function Summary(entries: seq<Entry>): Emissions {
    if entries == [] then Emissions(0, 0.0, map[], map[])
    else AddEntry(Summary(entries[..|entries| - 1]), entries[|entries| - 1])
  }

  function Ids(entries: seq<Entry>): (r: seq<int>)
    ensures |r| == |entries| && forall i :: 0 <= i < |entries| ==> r[i] == entries[i].id
  {
    seq(|entries|, i requires 0 <= i < |entries| => entries[i].id)
  }

  /** The counting idiom of the loop: a missing key starts at zero, then
      the key's count goes up by one. */
  method Count(m: map<string, nat>, t: string) returns (r: map<string, nat>)
    ensures r.Keys == m.Keys + {t}
    ensures r[t] == (if t in m then m[t] else 0) + 1
    ensures forall u :: u in m && u != t ==> r[u] == m[u]
    ensures r == Bump(m, t)
  {
    r := m;
    if t !in r {
      r := r[t := 0];
    }
    r := r[t := r[t] + 1];
  }

  /** process_cache, with the outcome of send_emissions as a parameter: it
      returns the aggregate it sends, the ids it counted, and the ids it
      asks the database to delete, if any. */
  method ProcessCache(entries: seq<Entry>, sent: bool) returns (emissions: Emissions, counted: seq<int>, deleted: Option<seq<int>>)
    ensures emissions == Summary(entries)
    ensures counted == Ids(entries)
    ensures deleted == if sent then Some(counted) else None
  {
    counted := [];
    emissions := Emissions(0, 0.0, map[], map[]);
    for i := 0 to |entries|
      invariant emissions == Summary(entries[..i])
      invariant counted == Ids(entries[..i])
    {
      assert entries[..i + 1][..i] == entries[..i];
      ghost var before := emissions;
      var entry := entries[i];
      counted := counted + [entry.id];
      assert counted == Ids(entries[..i + 1]);
      var carTypes := Count(emissions.carTypes, entry.carType);
      var gasTypes := Count(emissions.gasTypes, entry.gasType);
      emissions := Emissions(emissions.carCount + 1, emissions.co2 + entry.co2, carTypes, gasTypes);
      assert emissions == AddEntry(before, entry);
    }
    assert entries[..|entries|] == entries;
    deleted := if sent then Some(counted) else None;
  }

  // ---------------------------------------------------------------------
  // What the aggregate means
  // ---------------------------------------------------------------------

  /** The total CO2, summed from the first entry. */
  function Co2Total(entries: seq<Entry>): real {
    if entries == [] then 0.0 else entries[0].co2 + Co2Total(entries[1..])
  }

  function CarTypesOf(entries: seq<Entry>): (r: seq<string>)
    ensures |r| == |entries| && forall i :: 0 <= i < |entries| ==> r[i] == entries[i].carType
  {
    seq(|entries|, i requires 0 <= i < |entries| => entries[i].carType)
  }

  function GasTypesOf(entries: seq<Entry>): (r: seq<string>)
    ensures |r| == |entries| && forall i :: 0 <= i < |entries| ==> r[i] == entries[i].gasType
  {
    seq(|entries|, i requires 0 <= i < |entries| => entries[i].gasType)
  }

  /** Counting occurrences one value at a time. */
  function Tally(xs: seq<string>): map<string, nat> {
    if xs == [] then map[] else Bump(Tally(xs[..|xs| - 1]), xs[|xs| - 1])
  }

  /** The distinct values in order of first occurrence: the keys of the
      counting dictionary in insertion order. */
  function FirstSeen(xs: seq<string>): seq<string> {
    if xs == [] then []
    else
      var f := FirstSeen(xs[..|xs| - 1]);
      if xs[|xs| - 1] in f then f else f + [xs[|xs| - 1]]
  }

  predicate NoRepeats(keys: seq<string>) {
    forall i, j :: 0 <= i < j < |keys| ==> keys[i] != keys[j]
  }

  /** The sum of the values of m at the given keys. */
  function SumOver(m: map<string, nat>, keys: seq<string>): int {
    if keys == [] then 0
    else SumOver(m, keys[..|keys| - 1]) + (if keys[|keys| - 1] in m then m[keys[|keys| - 1]] else 0)
  }

  /** The aggregate splits into its fields: the count, the total and a
      tally of each type; no entries give the zero aggregate. */
  lemma {:induction false} SummaryFields(entries: seq<Entry>)
    ensures Summary(entries).carCount == |entries|
    ensures Summary(entries).co2 == Co2Total(entries)
    ensures Summary(entries).carTypes == Tally(CarTypesOf(entries))
    ensures Summary(entries).gasTypes == Tally(GasTypesOf(entries))
    ensures entries == [] ==> Summary(entries) == Emissions(0, 0.0, map[], map[])
  {
    if entries != [] {
      var init := entries[..|entries| - 1];
      SummaryFields(init);
      assert CarTypesOf(entries)[..|entries| - 1] == CarTypesOf(init);
      assert GasTypesOf(entries)[..|entries| - 1] == GasTypesOf(init);
      Co2Snoc(init, entries[|entries| - 1]);
      assert init + [entries[|entries| - 1]] == entries;
    }
  }

  /** Adding an entry at the end adds its CO2 to the total. */
  lemma {:induction false} Co2Snoc(entries: seq<Entry>, e: Entry)
    ensures Co2Total(entries + [e]) == Co2Total(entries) + e.co2
  {
    if entries != [] {
      Co2Snoc(entries[1..], e);
      assert (entries + [e])[1..] == entries[1..] + [e];
    }
  }

  /** Each counted value is a value of the list, each value of the list is
      counted, and its count is the number of its occurrences. */
  lemma {:induction false} TallyCounts(xs: seq<string>)
    ensures forall t :: t in Tally(xs) <==> t in xs
    ensures forall t :: t in Tally(xs) ==> Tally(xs)[t] == multiset(xs)[t]
  {
    if xs != [] {
      var init := xs[..|xs| - 1];
      TallyCounts(init);
      assert xs == init + [xs[|xs| - 1]];
    }
  }

  /** Raising one key's value by one raises the sum by one. */
  lemma {:induction false} SumOverBump(m: map<string, nat>, keys: seq<string>, t: string)
    requires NoRepeats(keys)
    ensures SumOver(Bump(m, t), keys) == SumOver(m, keys) + (if t in keys then 1 else 0)
  {
    if keys != [] {
      var init := keys[..|keys| - 1];
      SumOverBump(m, init, t);
    }
  }

  /** The values of a counting dictionary add up to the number of values
      counted: the keys in insertion order are distinct, are exactly the
      dictionary's keys, and their values sum to the length. */
  lemma {:induction false} TallySum(xs: seq<string>)
    ensures NoRepeats(FirstSeen(xs))
    ensures forall t :: t in FirstSeen(xs) <==> t in Tally(xs)
    ensures SumOver(Tally(xs), FirstSeen(xs)) == |xs|
  {
    if xs != [] {
      var init := xs[..|xs| - 1];
      var x := xs[|xs| - 1];
      TallySum(init);
      var f := FirstSeen(init);
      SumOverBump(Tally(init), f, x);
      if x !in f {
        assert (f + [x])[..|f|] == f;
      }
    }
  }

  /** What process_cache sends: as many cars as entries, the CO2 total,
      each type seen counted by its occurrences and no other, and type
      counts that each add up to the car count. */
  lemma ProcessCacheMeaning(entries: seq<Entry>)
    ensures var em := Summary(entries);
      && em.carCount == |entries|
      && em.co2 == Co2Total(entries)
      && (forall t :: t in em.carTypes <==> t in CarTypesOf(entries))
      && (forall t :: t in em.carTypes ==> em.carTypes[t] == multiset(CarTypesOf(entries))[t])
      && SumOver(em.carTypes, FirstSeen(CarTypesOf(entries))) == em.carCount
    ensures var em := Summary(entries);
      && (forall t :: t in em.gasTypes <==> t in GasTypesOf(entries))
      && (forall t :: t in em.gasTypes ==> em.gasTypes[t] == multiset(GasTypesOf(entries))[t])
      && SumOver(em.gasTypes, FirstSeen(GasTypesOf(entries))) == em.carCount
  {
    SummaryFields(entries);
    TallyCounts(CarTypesOf(entries));
    TallyCounts(GasTypesOf(entries));
    TallySum(CarTypesOf(entries));
    TallySum(GasTypesOf(entries));
  }
}
