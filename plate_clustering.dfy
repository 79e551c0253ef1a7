/**
 * _cluster_block_plates of the region-of-interest plate analyser
 * (components/reader/code/roi_plate_analyser.py:115-211): the records of a
 * recent window are grouped by text, the texts are clustered around the
 * texts rm_duplicates_1edit_away keeps, the track ids and labels of each
 * cluster are pooled and voted on, and the most frequent text of each
 * cluster seen at least eight times is returned.
 *
 * Each loop of the source has a specification function here, written as a
 * fold over a prefix of what the loop walks, and a method with the loop
 * proved equal to it.
 */
module PlateClustering {
  import opened Wrappers
  import opened Levenshtein
  import opened StableSort
  import opened PlateUtils
  import opened PlateRecords

  const MIN_PLATE_FREQUENCY_IN_BLOCK: nat := 8

  /** An entry of `distinct_plates`: a copy of the first record seen with
      its text, how often the text was seen, and the track ids and labels
      of all records with the text, in order. */
  datatype Group = Group(rec: PlateRecord, freq: nat, tracks: seq<int>, kinds: seq<string>)

  /** A returned record together with its `freq` entry. */
  datatype Counted = Counted(rec: PlateRecord, freq: nat)

  /** An entry of `clusters_dict`: the cluster's text and the indices, into
      the groups, of the texts at most one edit away from it. */
  datatype Cluster = Cluster(key: string, members: seq<nat>)

  /** The list objects of the clustering step.  `tracks[i]` and `kinds[i]`
      are the current contents of the lists created for the i-th group;
      `owner[c]` is the group whose lists cluster c refers to, since the
      source stores the member's list object itself and then extends it;
      `keys` is the insertion order of that dictionary. */
  datatype Pools = Pools(tracks: seq<seq<int>>, kinds: seq<seq<string>>, owner: map<string, nat>, keys: seq<string>)

  // ---------------------------------------------------------------------
  // Grouping by text (lines 134-147)
  // ---------------------------------------------------------------------

  /** The index of the group with text t, if any. */
  function IndexOf(groups: seq<Group>, t: string): (r: Option<nat>)
    ensures r.Some? ==> r.value < |groups| && groups[r.value].rec.text == t
    ensures r.None? ==> forall i :: 0 <= i < |groups| ==> groups[i].rec.text != t
  {
    if groups == [] then None
    else if groups[|groups| - 1].rec.text == t then Some(|groups| - 1)
    else IndexOf(groups[..|groups| - 1], t)
  }

  /** One pass of the grouping loop: empty slots are skipped, a new text
      opens a group, a known text counts once more. */
  function AddObservation(groups: seq<Group>, s: Slot): seq<Group> {
    match s
    case Empty => groups
    case Filled(r) =>
      match IndexOf(groups, r.text)
      case None => groups + [Group(r, 1, [r.trackId], [r.kind])]
      case Some(i) =>
        groups[i := Group(groups[i].rec, groups[i].freq + 1, groups[i].tracks + [r.trackId], groups[i].kinds + [r.kind])]
  }

  /** The groups of a window, in the order their texts first appear. */
  function GroupsOf(block: seq<Slot>): seq<Group> {
    if block == [] then [] else AddObservation(GroupsOf(block[..|block| - 1]), block[|block| - 1])
  }

  /** The grouping loop. */
  method TallyBlock(block: seq<Slot>) returns (groups: seq<Group>)
    ensures groups == GroupsOf(block)
  {
    groups := [];
    for i := 0 to |block|
      invariant groups == GroupsOf(block[..i])
    {
      assert block[..i + 1][..i] == block[..i];
      match block[i]
      case Empty =>
      case Filled(r) =>
        var found := IndexOf(groups, r.text);
        if found.None? {
          groups := groups + [Group(r, 1, [r.trackId], [r.kind])];
        } else {
          var j := found.value;
          groups := groups[j := Group(groups[j].rec, groups[j].freq + 1, groups[j].tracks + [r.trackId], groups[j].kinds + [r.kind])];
        }
    }
    assert block[..|block|] == block;
  }

  /** `list(distinct_plates.keys())` */
  function Texts(groups: seq<Group>): (r: seq<string>)
    ensures |r| == |groups| && forall i :: 0 <= i < |groups| ==> r[i] == groups[i].rec.text
  {
    seq(|groups|, i requires 0 <= i < |groups| => groups[i].rec.text)
  }

  // ---------------------------------------------------------------------
  // Clusters (lines 149-164)
  // ---------------------------------------------------------------------

  /** The indices below n of the groups at most one edit away from c. */
  function Near(groups: seq<Group>, c: string, n: nat): (r: seq<nat>)
    requires n <= |groups|
    ensures forall j :: 0 <= j < |r| ==> r[j] < n
  {
    if n == 0 then []
    else Near(groups, c, n - 1) + (if Distance(groups[n - 1].rec.text, c) <= 1 then [n - 1] else [])
  }

  /** The clusters of the kept texts, before sorting; a text with no member
      never enters the dictionary. */
  function RawClusters(groups: seq<Group>, cs: seq<string>): (r: seq<Cluster>)
    ensures forall k :: 0 <= k < |r| ==> forall j :: 0 <= j < |r[k].members| ==> r[k].members[j] < |groups|
  {
    if cs == [] then []
    else
      var c := cs[|cs| - 1];
      var near := Near(groups, c, |groups|);
      RawClusters(groups, cs[..|cs| - 1]) + (if near != [] then [Cluster(c, near)] else [])
  }

  /** The nested loop that fills `clusters_dict`. */
  method BuildClusters(groups: seq<Group>, cs: seq<string>) returns (raw: seq<Cluster>)
    ensures raw == RawClusters(groups, cs)
  {
    raw := [];
    for k := 0 to |cs|
      invariant raw == RawClusters(groups, cs[..k])
    {
      var c := cs[k];
      var members := [];
      for i := 0 to |groups|
        invariant members == Near(groups, c, i)
      {
        WithinOneEditIffDistanceAtMostOne(groups[i].rec.text, c);
        if WithinOneEdit(groups[i].rec.text, c) {
          members := members + [i];
        }
      }
      assert cs[..k + 1][..k] == cs[..k];
      if members != [] {
        raw := raw + [Cluster(c, members)];
      }
    }
    assert cs[..|cs|] == cs;
  }

  // ---------------------------------------------------------------------
  // Sorting the clusters and pooling their lists (lines 166-189)
  // ---------------------------------------------------------------------

  /** The sort key `p["plate_dict"]["freq"]` of a member. */
  function FreqOf(groups: seq<Group>): nat -> int {
    (i: nat) => if i < |groups| then groups[i].freq else 0
  }

  /** Each cluster's members, most frequent first, ties in group order. */
  function SortClusters(groups: seq<Group>, raw: seq<Cluster>): (r: seq<Cluster>)
    ensures |r| == |raw|
    ensures forall k :: 0 <= k < |r| ==> r[k] == Cluster(raw[k].key, SortDesc(raw[k].members, FreqOf(groups)))
  {
    if raw == [] then []
    else SortClusters(groups, raw[..|raw| - 1]) + [Cluster(raw[|raw| - 1].key, SortDesc(raw[|raw| - 1].members, FreqOf(groups)))]
  }

  /** Every member index is that of a group. */
  predicate MembersBelow(clusters: seq<Cluster>, n: nat) {
    forall k, j :: 0 <= k < |clusters| && 0 <= j < |clusters[k].members| ==> clusters[k].members[j] < n
  }

  /** The pools have a list pair per group, and every cluster refers to one of them. */
  ghost predicate PoolsFit(p: Pools, n: nat) {
    && |p.tracks| == n && |p.kinds| == n
    && (forall c :: c in p.owner ==> p.owner[c] < n)
    && (forall c :: c in p.owner <==> c in p.keys)
  }

  /** Before the loop each group's lists hold its own track ids and labels. */
  function InitialPools(groups: seq<Group>): (r: Pools)
    ensures PoolsFit(r, |groups|)
  {
    Pools(seq(|groups|, i requires 0 <= i < |groups| => groups[i].tracks),
          seq(|groups|, i requires 0 <= i < |groups| => groups[i].kinds), map[], [])
  }

  /** One member of cluster c: the first one's lists become the cluster's
      lists; each later one's lists are appended to them. */
  function PoolMember(p: Pools, c: string, m: nat): (r: Pools)
    requires PoolsFit(p, |p.tracks|) && m < |p.tracks|
    ensures PoolsFit(r, |p.tracks|)
  {
    if c !in p.owner then p.(owner := p.owner[c := m], keys := p.keys + [c])
    else
      var o := p.owner[c];
      p.(tracks := p.tracks[o := p.tracks[o] + p.tracks[m]], kinds := p.kinds[o := p.kinds[o] + p.kinds[m]])
  }

  /** All members of cluster c, in their sorted order. */
  function PoolCluster(p: Pools, c: string, members: seq<nat>): (r: Pools)
    requires PoolsFit(p, |p.tracks|) && forall j :: 0 <= j < |members| ==> members[j] < |p.tracks|
    ensures PoolsFit(r, |p.tracks|)
  {
    if members == [] then p
    else PoolMember(PoolCluster(p, c, members[..|members| - 1]), c, members[|members| - 1])
  }

  /** All clusters, in their order. */
  function PoolClusters(p: Pools, clusters: seq<Cluster>): (r: Pools)
    requires PoolsFit(p, |p.tracks|) && MembersBelow(clusters, |p.tracks|)
    ensures PoolsFit(r, |p.tracks|)
  {
    if clusters == [] then p
    else
      var last := clusters[|clusters| - 1];
      PoolCluster(PoolClusters(p, clusters[..|clusters| - 1]), last.key, last.members)
  }

  /** Sorting keeps the members of each cluster. */
  lemma SortedMembersBelow(groups: seq<Group>, raw: seq<Cluster>)
    requires MembersBelow(raw, |groups|)
    ensures MembersBelow(SortClusters(groups, raw), |groups|)
  {
    var sorted := SortClusters(groups, raw);
    forall k, j | 0 <= k < |sorted| && 0 <= j < |sorted[k].members| ensures sorted[k].members[j] < |groups| {
      SortDescSortedPermutation(raw[k].members, FreqOf(groups));
      assert sorted[k].members[j] in multiset(raw[k].members);
    }
  }

  /** The inner loop over the members of cluster c. */
  method PoolMembers(pools: Pools, c: string, arr: seq<nat>) returns (r: Pools)
    requires PoolsFit(pools, |pools.tracks|)
    requires forall j :: 0 <= j < |arr| ==> arr[j] < |pools.tracks|
    ensures r == PoolCluster(pools, c, arr)
  {
    r := pools;
    for j := 0 to |arr|
      invariant PoolsFit(r, |pools.tracks|)
      invariant r == PoolCluster(pools, c, arr[..j])
    {
      assert arr[..j + 1][..j] == arr[..j];
      var m := arr[j];
      if c !in r.owner {
        r := r.(owner := r.owner[c := m], keys := r.keys + [c]);
      } else {
        var o := r.owner[c];
        r := r.(tracks := r.tracks[o := r.tracks[o] + r.tracks[m]], kinds := r.kinds[o := r.kinds[o] + r.kinds[m]]);
      }
    }
    assert arr[..|arr|] == arr;
  }

  /** One pass of the cluster loop: the members are sorted by descending
      count and their lists pooled into the first one's. */
  method SortAndPoolCluster(groups: seq<Group>, rc: Cluster, pools: Pools) returns (c: Cluster, r: Pools)
    requires PoolsFit(pools, |groups|)
    requires forall j :: 0 <= j < |rc.members| ==> rc.members[j] < |groups|
    ensures c == Cluster(rc.key, SortDesc(rc.members, FreqOf(groups)))
    ensures forall j :: 0 <= j < |c.members| ==> c.members[j] < |groups|
    ensures r == PoolCluster(pools, c.key, c.members)
  {
    var arr := SortDesc(rc.members, FreqOf(groups));
    forall j | 0 <= j < |arr| ensures arr[j] < |groups| {
      SortDescSortedPermutation(rc.members, FreqOf(groups));
      assert arr[j] in multiset(rc.members);
    }
    c := Cluster(rc.key, arr);
    r := PoolMembers(pools, rc.key, arr);
  }

  /** The loop that sorts each cluster and pools its lists. */
  method SortAndPool(groups: seq<Group>, raw: seq<Cluster>) returns (clusters: seq<Cluster>, pools: Pools)
    requires MembersBelow(raw, |groups|)
    ensures clusters == SortClusters(groups, raw)
    ensures MembersBelow(clusters, |groups|)
    ensures pools == PoolClusters(InitialPools(groups), clusters)
  {
    var init := InitialPools(groups);
    clusters := [];
    pools := init;
    for k := 0 to |raw|
      invariant clusters == SortClusters(groups, raw[..k])
      invariant MembersBelow(clusters, |groups|)
      invariant pools == PoolClusters(init, clusters)
    {
      SortClustersPrefix(groups, raw, k);
      MembersBelowAt(raw, |groups|, k);
      var c;
      c, pools := SortAndPoolCluster(groups, raw[k], pools);
      PoolClustersSnoc(init, clusters, c);
      clusters := clusters + [c];
    }
    assert raw[..|raw|] == raw;
  }

  /** Sorting one more cluster. */
  lemma SortClustersPrefix(groups: seq<Group>, raw: seq<Cluster>, k: nat)
    requires k < |raw|
    ensures SortClusters(groups, raw[..k + 1])
      == SortClusters(groups, raw[..k]) + [Cluster(raw[k].key, SortDesc(raw[k].members, FreqOf(groups)))]
  {
    assert raw[..k + 1][..k] == raw[..k];
  }

  lemma MembersBelowAt(clusters: seq<Cluster>, n: nat, k: nat)
    requires MembersBelow(clusters, n) && k < |clusters|
    ensures forall j :: 0 <= j < |clusters[k].members| ==> clusters[k].members[j] < n
  {
  }

  /** Pooling one more cluster. */
  lemma PoolClustersSnoc(p: Pools, clusters: seq<Cluster>, c: Cluster)
    requires PoolsFit(p, |p.tracks|) && MembersBelow(clusters, |p.tracks|)
    requires forall j :: 0 <= j < |c.members| ==> c.members[j] < |p.tracks|
    ensures MembersBelow(clusters + [c], |p.tracks|)
    ensures PoolClusters(p, clusters + [c]) == PoolCluster(PoolClusters(p, clusters), c.key, c.members)
  {
    assert (clusters + [c])[..|clusters|] == clusters;
  }

  // ---------------------------------------------------------------------
  // Votes (lines 191-201)
  // ---------------------------------------------------------------------

  /** The elements of s satisfying p, in order. */
  function Filter<T(!new)>(s: seq<T>, p: T -> bool): (r: seq<T>)
    ensures forall x :: x in r <==> x in s && p(x)
    ensures forall x :: multiset(r)[x] == if p(x) then multiset(s)[x] else 0
  {
    if s == [] then []
    else
      var last := s[|s| - 1];
      assert s == s[..|s| - 1] + [last];
      Filter(s[..|s| - 1], p) + (if p(last) then [last] else [])
  }

  function IsPositive(t: int): bool { t > 0 }

  function IsNonEmpty(l: string): bool { |l| > 0 }

  /** The best of the first k elements of s by their count in all of s,
      the earliest winning ties, as `max(s, key=s.count)` walks them. */
  function ModeOfPrefix<T(==)>(s: seq<T>, k: nat): (r: T)
    requires 0 < k <= |s|
    ensures exists i :: 0 <= i < k && s[i] == r && forall j :: 0 <= j < i ==> multiset(s)[s[j]] < multiset(s)[r]
    ensures forall j :: 0 <= j < k ==> multiset(s)[s[j]] <= multiset(s)[r]
  {
    if k == 1 then s[0]
    else
      var best := ModeOfPrefix(s, k - 1);
      if multiset(s)[s[k - 1]] > multiset(s)[best] then s[k - 1] else best
  }

  /** `max(s, key=s.count)`: a most frequent element of s, the one that
      occurs first among the most frequent. */
  function Mode<T(==)>(s: seq<T>): (r: T)
    requires s != []
    ensures r in s
    ensures forall x :: x in s ==> multiset(s)[x] <= multiset(s)[r]
    ensures forall j :: 0 <= j < |s| && multiset(s)[s[j]] == multiset(s)[r] ==> exists i :: 0 <= i <= j && s[i] == r
  {
    var r := ModeOfPrefix(s, |s|);
    assert forall x :: x in s ==> exists j :: 0 <= j < |s| && s[j] == x;
    r
  }

  /** Whether the pooled track ids of cluster key k hold a positive id. */
  function TrackVote(groups: seq<Group>, p: Pools, k: string): (r: seq<Group>)
    requires PoolsFit(p, |p.tracks|)
    ensures |r| == |groups|
  {
    if k in p.owner then
      var pos := Filter(p.tracks[p.owner[k]], IsPositive);
      match IndexOf(groups, k)
      case Some(i) => if pos != [] then groups[i := groups[i].(rec := groups[i].rec.(trackId := Mode(pos)))] else groups
      case None => groups
    else groups
  }

  /** The track vote of each cluster, written to the record of the
      cluster's own text. */
  function TrackVotes(groups: seq<Group>, p: Pools, keys: seq<string>): (r: seq<Group>)
    requires PoolsFit(p, |p.tracks|)
    ensures |r| == |groups|
  {
    if keys == [] then groups
    else TrackVote(TrackVotes(groups, p, keys[..|keys| - 1]), p, keys[|keys| - 1])
  }

  function KindVote(groups: seq<Group>, p: Pools, k: string): (r: seq<Group>)
    requires PoolsFit(p, |p.tracks|)
    ensures |r| == |groups|
  {
    if k in p.owner then
      var labels := Filter(p.kinds[p.owner[k]], IsNonEmpty);
      match IndexOf(groups, k)
      case Some(i) => if labels != [] then groups[i := groups[i].(rec := groups[i].rec.(kind := Mode(labels)))] else groups
      case None => groups
    else groups
  }

  /** The label vote of each cluster, written like the track vote. */
  function KindVotes(groups: seq<Group>, p: Pools, keys: seq<string>): (r: seq<Group>)
    requires PoolsFit(p, |p.tracks|)
    ensures |r| == |groups|
  {
    if keys == [] then groups
    else KindVote(KindVotes(groups, p, keys[..|keys| - 1]), p, keys[|keys| - 1])
  }

  /** The track vote of one key: the most frequent positive id pooled for
      it, written to the record of its text. */
  method VoteTrack(voted: seq<Group>, p: Pools, key: string) returns (r: seq<Group>)
    requires PoolsFit(p, |p.tracks|) && key in p.keys
    ensures r == TrackVote(voted, p, key)
  {
    r := voted;
    var pos := Filter(p.tracks[p.owner[key]], IsPositive);
    if pos != [] {
      var found := IndexOf(voted, key);
      if found.Some? {
        var i := found.value;
        r := voted[i := voted[i].(rec := voted[i].rec.(trackId := Mode(pos)))];
      }
    }
  }

  /** The votes over one more key of the key order. */
  lemma TrackVotesPrefix(groups: seq<Group>, p: Pools, keys: seq<string>, k: nat)
    requires PoolsFit(p, |p.tracks|) && k < |keys|
    ensures TrackVotes(groups, p, keys[..k + 1]) == TrackVote(TrackVotes(groups, p, keys[..k]), p, keys[k])
  {
    assert keys[..k + 1][..k] == keys[..k];
  }

  lemma KindVotesPrefix(groups: seq<Group>, p: Pools, keys: seq<string>, k: nat)
    requires PoolsFit(p, |p.tracks|) && k < |keys|
    ensures KindVotes(groups, p, keys[..k + 1]) == KindVote(KindVotes(groups, p, keys[..k]), p, keys[k])
  {
    assert keys[..k + 1][..k] == keys[..k];
  }

  /** The track-vote loop. */
  method ApplyTrackVotes(groups: seq<Group>, p: Pools) returns (voted: seq<Group>)
    requires PoolsFit(p, |p.tracks|)
    ensures voted == TrackVotes(groups, p, p.keys)
  {
    voted := groups;
    for k := 0 to |p.keys|
      invariant voted == TrackVotes(groups, p, p.keys[..k])
    {
      TrackVotesPrefix(groups, p, p.keys, k);
      voted := VoteTrack(voted, p, p.keys[k]);
    }
    assert p.keys[..|p.keys|] == p.keys;
  }

  /** The label vote of one key, likewise. */
  method VoteKind(voted: seq<Group>, p: Pools, key: string) returns (r: seq<Group>)
    requires PoolsFit(p, |p.tracks|) && key in p.keys
    ensures r == KindVote(voted, p, key)
  {
    r := voted;
    var labels := Filter(p.kinds[p.owner[key]], IsNonEmpty);
    if labels != [] {
      var found := IndexOf(voted, key);
      if found.Some? {
        var i := found.value;
        r := voted[i := voted[i].(rec := voted[i].rec.(kind := Mode(labels)))];
      }
    }
  }

  /** The label-vote loop. */
  method ApplyKindVotes(groups: seq<Group>, p: Pools) returns (voted: seq<Group>)
    requires PoolsFit(p, |p.tracks|)
    ensures voted == KindVotes(groups, p, p.keys)
  {
    voted := groups;
    for k := 0 to |p.keys|
      invariant voted == KindVotes(groups, p, p.keys[..k])
    {
      KindVotesPrefix(groups, p, p.keys, k);
      voted := VoteKind(voted, p, p.keys[k]);
    }
    assert p.keys[..|p.keys|] == p.keys;
  }

  // ---------------------------------------------------------------------
  // Candidates and the result (lines 203-211)
  // ---------------------------------------------------------------------

  /** The texts heading their cluster with at least eight observations. */
  function Candidates(groups: seq<Group>, clusters: seq<Cluster>): seq<string> {
    if clusters == [] then []
    else
      var c := clusters[|clusters| - 1];
      Candidates(groups, clusters[..|clusters| - 1])
        + (if |c.members| > 0 && c.members[0] < |groups| && groups[c.members[0]].freq >= MIN_PLATE_FREQUENCY_IN_BLOCK
           then [groups[c.members[0]].rec.text] else [])
  }

  /** The candidate loop. */
  method SelectCandidates(groups: seq<Group>, clusters: seq<Cluster>) returns (candidates: seq<string>)
    requires MembersBelow(clusters, |groups|)
    requires forall k :: 0 <= k < |clusters| ==> |clusters[k].members| > 0
    ensures candidates == Candidates(groups, clusters)
  {
    candidates := [];
    for k := 0 to |clusters|
      invariant candidates == Candidates(groups, clusters[..k])
    {
      assert clusters[..k + 1][..k] == clusters[..k];
      var head := clusters[k].members[0];
      if groups[head].freq >= MIN_PLATE_FREQUENCY_IN_BLOCK {
        candidates := candidates + [groups[head].rec.text];
      }
    }
    assert clusters[..|clusters|] == clusters;
  }

  /** `[distinct_plates[plate] for plate in candidate_plates]` */
  function RecordsOf(groups: seq<Group>, texts: seq<string>): seq<Counted> {
    if texts == [] then []
    else
      RecordsOf(groups, texts[..|texts| - 1])
        + match IndexOf(groups, texts[|texts| - 1])
          case Some(i) => [Counted(groups[i].rec, groups[i].freq)]
          case None => []
  }

  /** Every record of the window has a text. */
  predicate TextsPresent(block: seq<Slot>) {
    forall i :: 0 <= i < |block| && block[i].Filled? ==> |block[i].rec.text| > 0
  }

  /** What _cluster_block_plates returns for a window and the previously
      reported texts. */
  function ClusterBlockPlates(block: seq<Slot>, prev: seq<string>): seq<Counted> {
    var groups := GroupsOf(block);
    var clusters := BlockClusters(groups, prev);
    RecordsOf(BlockVotes(groups, clusters), RmDuplicates(Candidates(groups, clusters), prev))
  }

  /** The sorted clusters of the texts that survive deduplication. */
  function BlockClusters(groups: seq<Group>, prev: seq<string>): (r: seq<Cluster>)
    ensures MembersBelow(r, |groups|)
    ensures forall k :: 0 <= k < |r| ==> |r[k].members| > 0
  {
    var raw := RawClusters(groups, RmDuplicates(Texts(groups), prev));
    SortedMembersBelow(groups, raw);
    RawClustersNonEmpty(groups, RmDuplicates(Texts(groups), prev));
    SortClusters(groups, raw)
  }

  /** The pooled lists of the clusters. */
  function BlockPools(groups: seq<Group>, clusters: seq<Cluster>): (r: Pools)
    requires MembersBelow(clusters, |groups|)
    ensures PoolsFit(r, |groups|)
  {
    PoolClusters(InitialPools(groups), clusters)
  }

  /** The groups after both votes. */
  function BlockVotes(groups: seq<Group>, clusters: seq<Cluster>): (r: seq<Group>)
    requires MembersBelow(clusters, |groups|)
    ensures |r| == |groups|
  {
    var pools := BlockPools(groups, clusters);
    KindVotes(TrackVotes(groups, pools, pools.keys), pools, pools.keys)
  }

  /** Every cluster that enters the dictionary has a member. */
  lemma {:induction false} RawClustersNonEmpty(groups: seq<Group>, cs: seq<string>)
    ensures forall k :: 0 <= k < |RawClusters(groups, cs)| ==> |RawClusters(groups, cs)[k].members| > 0
  {
    if cs != [] {
      RawClustersNonEmpty(groups, cs[..|cs| - 1]);
    }
  }

  /** Each candidate is the text of a group. */
  lemma {:induction false} CandidatesAreTexts(groups: seq<Group>, clusters: seq<Cluster>)
    ensures forall c :: c in Candidates(groups, clusters) ==> c in Texts(groups)
  {
    if clusters != [] {
      CandidatesAreTexts(groups, clusters[..|clusters| - 1]);
    }
  }

  /** The clusters of a window: lines 134-189. */
  method ClusterBlock(block: seq<Slot>, prev: seq<string>) returns (groups: seq<Group>, clusters: seq<Cluster>, pools: Pools)
    requires TextsPresent(block) && NonEmptyTexts(prev)
    ensures groups == GroupsOf(block)
    ensures clusters == BlockClusters(groups, prev)
    ensures forall k :: 0 <= k < |clusters| ==> |clusters[k].members| > 0
    ensures pools == BlockPools(groups, clusters)
  {
    groups := TallyBlock(block);
    GroupTextsObserved(block);
    var texts := Texts(groups);
    var platesList := new string[|texts|](i requires 0 <= i < |texts| => texts[i]);
    assert platesList[..] == texts;
    var clustersList := RmDuplicates1EditAway(platesList, prev);
    var raw := BuildClusters(groups, clustersList);
    RawClustersNonEmpty(groups, clustersList);
    clusters, pools := SortAndPool(groups, raw);
  }

  /** Candidates are texts of the groups, so none is empty when no group's is. */
  lemma CandidateTextsPresent(groups: seq<Group>, clusters: seq<Cluster>)
    requires NonEmptyTexts(Texts(groups))
    ensures NonEmptyTexts(Candidates(groups, clusters))
  {
    var candidates := Candidates(groups, clusters);
    CandidatesAreTexts(groups, clusters);
    forall i | 0 <= i < |candidates| ensures |candidates[i]| > 0 {
      assert candidates[i] in Texts(groups);
      var j :| 0 <= j < |groups| && Texts(groups)[j] == candidates[i];
    }
  }

  /** _cluster_block_plates. */
  method ClusterPlates(block: seq<Slot>, prev: seq<string>) returns (result: seq<Counted>)
    requires TextsPresent(block) && NonEmptyTexts(prev)
    ensures result == ClusterBlockPlates(block, prev)
  {
    var groups, clusters, pools := ClusterBlock(block, prev);
    GroupTextsObserved(block);
    var voted := ApplyTrackVotes(groups, pools);
    voted := ApplyKindVotes(voted, pools);
    var candidates := SelectCandidates(groups, clusters);
    CandidateTextsPresent(groups, clusters);
    var candidateArr := new string[|candidates|](i requires 0 <= i < |candidates| => candidates[i]);
    assert candidateArr[..] == candidates;
    var kept := RmDuplicates1EditAway(candidateArr, prev);
    result := RecordsOf(voted, kept);
  }

  // ---------------------------------------------------------------------
  // The groups count the observations of each text
  // ---------------------------------------------------------------------

  /** The records of the window with text t, in order. */
  function Observations(block: seq<Slot>, t: string): seq<PlateRecord> {
    if block == [] then []
    else
      Observations(block[..|block| - 1], t)
        + match block[|block| - 1]
          case Filled(r) => if r.text == t then [r] else []
          case Empty => []
  }

  function TrackIdsOf(rs: seq<PlateRecord>): (r: seq<int>)
    ensures |r| == |rs| && forall i :: 0 <= i < |rs| ==> r[i] == rs[i].trackId
  {
    seq(|rs|, i requires 0 <= i < |rs| => rs[i].trackId)
  }

  function KindsOf(rs: seq<PlateRecord>): (r: seq<string>)
    ensures |r| == |rs| && forall i :: 0 <= i < |rs| ==> r[i] == rs[i].kind
  {
    seq(|rs|, i requires 0 <= i < |rs| => rs[i].kind)
  }

  predicate DistinctTexts(groups: seq<Group>) {
    forall i, j :: 0 <= i < j < |groups| ==> groups[i].rec.text != groups[j].rec.text
  }

  /** The group summarises every observation of its text. */
  predicate Summarises(g: Group, obs: seq<PlateRecord>) {
    && obs != [] && g.rec == obs[0] && g.freq == |obs|
    && g.tracks == TrackIdsOf(obs) && g.kinds == KindsOf(obs)
  }

  /** Each text of the window has exactly one group, which keeps the first
      record with the text, counts its records, and lists their track ids
      and labels in order. */
  ghost predicate GroupsSummarise(block: seq<Slot>) {
    && DistinctTexts(GroupsOf(block))
    && (forall t :: IndexOf(GroupsOf(block), t).Some? <==> Observations(block, t) != [])
    && (forall i :: 0 <= i < |GroupsOf(block)| ==>
          Summarises(GroupsOf(block)[i], Observations(block, GroupsOf(block)[i].rec.text)))
  }

  lemma {:induction false} GroupsOfObservations(block: seq<Slot>)
    ensures GroupsSummarise(block)
  {
    if block != [] {
      var init := block[..|block| - 1];
      GroupsOfObservations(init);
      assert block == init + [block[|block| - 1]];
      match block[|block| - 1] {
        case Empty =>
          assert GroupsOf(block) == GroupsOf(init);
          forall t ensures Observations(block, t) == Observations(init, t) {
          }
        case Filled(x) =>
          FilledStep(init, x);
      }
    }
  }

  /** The grouping step for a record. */
  lemma FilledStep(init: seq<Slot>, x: PlateRecord)
    requires GroupsSummarise(init)
    ensures GroupsSummarise(init + [Filled(x)])
  {
    var block := init + [Filled(x)];
    assert block[..|block| - 1] == init;
    forall t ensures Observations(block, t) == Observations(init, t) + (if x.text == t then [x] else []) {
    }
    if IndexOf(GroupsOf(init), x.text).None? {
      NewTextStep(init, x);
    } else {
      KnownTextStep(init, x);
    }
  }

  /** Looking a text up after one more group. */
  lemma IndexOfAppend(gs: seq<Group>, g: Group, t: string)
    ensures IndexOf(gs + [g], t) == if g.rec.text == t then Some(|gs|) else IndexOf(gs, t)
  {
    assert (gs + [g])[..|gs|] == gs;
  }

  lemma NewTextStep(init: seq<Slot>, x: PlateRecord)
    requires GroupsSummarise(init) && IndexOf(GroupsOf(init), x.text).None?
    requires forall t :: Observations(init + [Filled(x)], t) == Observations(init, t) + (if x.text == t then [x] else [])
    ensures GroupsSummarise(init + [Filled(x)])
  {
    var block := init + [Filled(x)];
    assert block[..|block| - 1] == init;
    var gs := GroupsOf(init);
    var g := Group(x, 1, [x.trackId], [x.kind]);
    assert GroupsOf(block) == gs + [g];
    NewTextIndex(init, x);
    NewTextSummaries(init, x);
  }

  lemma NewTextIndex(init: seq<Slot>, x: PlateRecord)
    requires GroupsSummarise(init) && IndexOf(GroupsOf(init), x.text).None?
    requires forall t :: Observations(init + [Filled(x)], t) == Observations(init, t) + (if x.text == t then [x] else [])
    requires GroupsOf(init + [Filled(x)]) == GroupsOf(init) + [Group(x, 1, [x.trackId], [x.kind])]
    ensures DistinctTexts(GroupsOf(init + [Filled(x)]))
    ensures forall t :: IndexOf(GroupsOf(init + [Filled(x)]), t).Some? <==> Observations(init + [Filled(x)], t) != []
  {
    var gs := GroupsOf(init);
    var g := Group(x, 1, [x.trackId], [x.kind]);
    forall t ensures IndexOf(gs + [g], t).Some? <==> Observations(init + [Filled(x)], t) != [] {
      IndexOfAppend(gs, g, t);
    }
  }

  lemma NewTextSummaries(init: seq<Slot>, x: PlateRecord)
    requires GroupsSummarise(init) && IndexOf(GroupsOf(init), x.text).None?
    requires forall t :: Observations(init + [Filled(x)], t) == Observations(init, t) + (if x.text == t then [x] else [])
    requires GroupsOf(init + [Filled(x)]) == GroupsOf(init) + [Group(x, 1, [x.trackId], [x.kind])]
    ensures forall i :: 0 <= i < |GroupsOf(init + [Filled(x)])| ==>
      Summarises(GroupsOf(init + [Filled(x)])[i], Observations(init + [Filled(x)], GroupsOf(init + [Filled(x)])[i].rec.text))
  {
    var block := init + [Filled(x)];
    var gs := GroupsOf(init);
    var r := GroupsOf(block);
    assert Observations(block, x.text) == [x] by {
      assert Observations(init, x.text) == [];
    }
    forall i | 0 <= i < |r| ensures Summarises(r[i], Observations(block, r[i].rec.text)) {
      if i < |gs| {
        assert r[i] == gs[i];
      }
    }
  }

  lemma KnownTextStep(init: seq<Slot>, x: PlateRecord)
    requires GroupsSummarise(init) && IndexOf(GroupsOf(init), x.text).Some?
    requires forall t :: Observations(init + [Filled(x)], t) == Observations(init, t) + (if x.text == t then [x] else [])
    ensures GroupsSummarise(init + [Filled(x)])
  {
    KnownTextIndex(init, x);
    KnownTextSummaries(init, x);
  }

  lemma KnownTextIndex(init: seq<Slot>, x: PlateRecord)
    requires GroupsSummarise(init) && IndexOf(GroupsOf(init), x.text).Some?
    requires forall t :: Observations(init + [Filled(x)], t) == Observations(init, t) + (if x.text == t then [x] else [])
    ensures DistinctTexts(GroupsOf(init + [Filled(x)]))
    ensures forall t :: IndexOf(GroupsOf(init + [Filled(x)]), t).Some? <==> Observations(init + [Filled(x)], t) != []
  {
    var block := init + [Filled(x)];
    assert block[..|block| - 1] == init;
    var gs := GroupsOf(init);
    var r := GroupsOf(block);
    var k := IndexOf(gs, x.text).value;
    assert r == gs[k := Group(gs[k].rec, gs[k].freq + 1, gs[k].tracks + [x.trackId], gs[k].kinds + [x.kind])];
    forall t ensures IndexOf(r, t) == IndexOf(gs, t) {
      IndexOfSameTexts(gs, r, t);
    }
  }

  lemma KnownTextSummaries(init: seq<Slot>, x: PlateRecord)
    requires GroupsSummarise(init) && IndexOf(GroupsOf(init), x.text).Some?
    requires forall t :: Observations(init + [Filled(x)], t) == Observations(init, t) + (if x.text == t then [x] else [])
    ensures forall i :: 0 <= i < |GroupsOf(init + [Filled(x)])| ==>
      Summarises(GroupsOf(init + [Filled(x)])[i], Observations(init + [Filled(x)], GroupsOf(init + [Filled(x)])[i].rec.text))
  {
    var block := init + [Filled(x)];
    assert block[..|block| - 1] == init;
    var gs := GroupsOf(init);
    var r := GroupsOf(block);
    var k := IndexOf(gs, x.text).value;
    assert r == gs[k := Group(gs[k].rec, gs[k].freq + 1, gs[k].tracks + [x.trackId], gs[k].kinds + [x.kind])];
    forall i | 0 <= i < |r| ensures Summarises(r[i], Observations(block, r[i].rec.text)) {
      if i != k {
        assert r[i] == gs[i];
        assert gs[i].rec.text != x.text;
      } else {
        var obs := Observations(init, x.text);
        assert Summarises(gs[k], obs);
        assert TrackIdsOf(obs + [x]) == TrackIdsOf(obs) + [x.trackId];
        assert KindsOf(obs + [x]) == KindsOf(obs) + [x.kind];
      }
    }
  }

  /** Every text of the groups is that of a record of the window. */
  lemma GroupTextsObserved(block: seq<Slot>)
    requires TextsPresent(block)
    ensures NonEmptyTexts(Texts(GroupsOf(block)))
  {
    GroupsOfObservations(block);
    var gs := GroupsOf(block);
    forall i | 0 <= i < |gs| ensures |gs[i].rec.text| > 0 {
      ObservationsFromBlock(block, gs[i].rec.text);
      assert gs[i].rec in Observations(block, gs[i].rec.text);
    }
  }

  /** Observations are records of the window. */
  lemma {:induction false} ObservationsFromBlock(block: seq<Slot>, t: string)
    ensures forall r :: r in Observations(block, t) ==> r.text == t && Filled(r) in block
  {
    if block != [] {
      ObservationsFromBlock(block[..|block| - 1], t);
      assert forall r :: Filled(r) in block[..|block| - 1] ==> Filled(r) in block;
    }
  }

  // ---------------------------------------------------------------------
  // What the votes write
  // ---------------------------------------------------------------------

  lemma IndexOfDistinct(groups: seq<Group>, i: nat)
    requires DistinctTexts(groups) && i < |groups|
    ensures IndexOf(groups, groups[i].rec.text) == Some(i)
  {
  }

  /** The positive track ids pooled for cluster t. */
  function PositiveTracks(p: Pools, t: string): seq<int>
    requires PoolsFit(p, |p.tracks|)
  {
    if t in p.owner then Filter(p.tracks[p.owner[t]], IsPositive) else []
  }

  /** The non-empty labels pooled for cluster t. */
  function NonEmptyKinds(p: Pools, t: string): seq<string>
    requires PoolsFit(p, |p.tracks|)
  {
    if t in p.owner then Filter(p.kinds[p.owner[t]], IsNonEmpty) else []
  }

  /** The track id the vote leaves on group g: the most frequent positive
      id pooled for its text, the earliest on ties, when its text heads a
      cluster that pooled one; its own otherwise. */
  function VotedTrack(g: Group, p: Pools, keys: seq<string>): int
    requires PoolsFit(p, |p.tracks|)
  {
    if g.rec.text in keys && PositiveTracks(p, g.rec.text) != [] then Mode(PositiveTracks(p, g.rec.text))
    else g.rec.trackId
  }

  /** The label the vote leaves on group g, likewise. */
  function VotedKind(g: Group, p: Pools, keys: seq<string>): string
    requires PoolsFit(p, |p.tracks|)
  {
    if g.rec.text in keys && NonEmptyKinds(p, g.rec.text) != [] then Mode(NonEmptyKinds(p, g.rec.text))
    else g.rec.kind
  }

  /** One track vote rewrites the track id of the group whose text is k, if
      the cluster of k pooled a positive id, and leaves every other group. */
  lemma TrackVoteEffect(groups: seq<Group>, p: Pools, k: string)
    requires PoolsFit(p, |p.tracks|) && DistinctTexts(groups)
    ensures forall i :: 0 <= i < |groups| ==>
      TrackVote(groups, p, k)[i] ==
        if groups[i].rec.text == k && PositiveTracks(p, k) != []
        then groups[i].(rec := groups[i].rec.(trackId := Mode(PositiveTracks(p, k))))
        else groups[i]
  {
    var found := IndexOf(groups, k);
    if found.Some? {
      IndexOfDistinct(groups, found.value);
    }
  }

  /** One label vote, likewise. */
  lemma KindVoteEffect(groups: seq<Group>, p: Pools, k: string)
    requires PoolsFit(p, |p.tracks|) && DistinctTexts(groups)
    ensures forall i :: 0 <= i < |groups| ==>
      KindVote(groups, p, k)[i] ==
        if groups[i].rec.text == k && NonEmptyKinds(p, k) != []
        then groups[i].(rec := groups[i].rec.(kind := Mode(NonEmptyKinds(p, k))))
        else groups[i]
  {
    var found := IndexOf(groups, k);
    if found.Some? {
      IndexOfDistinct(groups, found.value);
    }
  }

  /** The track votes over keys change the track id of each record to its
      voted one and nothing else. */
  lemma {:induction false} TrackVotesEffect(groups: seq<Group>, p: Pools, keys: seq<string>)
    requires PoolsFit(p, |p.tracks|) && DistinctTexts(groups)
    ensures |TrackVotes(groups, p, keys)| == |groups|
    ensures forall i :: 0 <= i < |groups| ==>
      TrackVotes(groups, p, keys)[i] == groups[i].(rec := groups[i].rec.(trackId := VotedTrack(groups[i], p, keys)))
  {
    if keys != [] {
      var init := keys[..|keys| - 1];
      var k := keys[|keys| - 1];
      TrackVotesEffect(groups, p, init);
      var before := TrackVotes(groups, p, init);
      assert DistinctTexts(before) by {
        assert forall i :: 0 <= i < |groups| ==> before[i].rec.text == groups[i].rec.text;
      }
      TrackVoteEffect(before, p, k);
      forall i | 0 <= i < |groups|
        ensures TrackVotes(groups, p, keys)[i] == groups[i].(rec := groups[i].rec.(trackId := VotedTrack(groups[i], p, keys)))
      {
        var t := groups[i].rec.text;
        assert t in keys <==> t in init || t == k by {
          assert keys == init + [k];
        }
      }
    }
  }

  /** The label votes over keys change the label of each record to its
      voted one and nothing else. */
  lemma {:induction false} KindVotesEffect(groups: seq<Group>, p: Pools, keys: seq<string>)
    requires PoolsFit(p, |p.tracks|) && DistinctTexts(groups)
    ensures |KindVotes(groups, p, keys)| == |groups|
    ensures forall i :: 0 <= i < |groups| ==>
      KindVotes(groups, p, keys)[i] == groups[i].(rec := groups[i].rec.(kind := VotedKind(groups[i], p, keys)))
  {
    if keys != [] {
      var init := keys[..|keys| - 1];
      var k := keys[|keys| - 1];
      KindVotesEffect(groups, p, init);
      var before := KindVotes(groups, p, init);
      assert DistinctTexts(before) by {
        assert forall i :: 0 <= i < |groups| ==> before[i].rec.text == groups[i].rec.text;
      }
      KindVoteEffect(before, p, k);
      forall i | 0 <= i < |groups|
        ensures KindVotes(groups, p, keys)[i] == groups[i].(rec := groups[i].rec.(kind := VotedKind(groups[i], p, keys)))
      {
        var t := groups[i].rec.text;
        assert t in keys <==> t in init || t == k by {
          assert keys == init + [k];
        }
      }
    }
  }

  /** Both votes together: each group keeps its text, first record and
      count, and takes its voted track id and label. */
  lemma BlockVotesEffect(groups: seq<Group>, clusters: seq<Cluster>)
    requires MembersBelow(clusters, |groups|) && DistinctTexts(groups)
    ensures |BlockVotes(groups, clusters)| == |groups|
    ensures forall i :: 0 <= i < |groups| ==>
      var p := BlockPools(groups, clusters);
      BlockVotes(groups, clusters)[i]
        == groups[i].(rec := groups[i].rec.(trackId := VotedTrack(groups[i], p, p.keys), kind := VotedKind(groups[i], p, p.keys)))
  {
    var p := BlockPools(groups, clusters);
    TrackVotesEffect(groups, p, p.keys);
    var tracked := TrackVotes(groups, p, p.keys);
    assert DistinctTexts(tracked) by {
      assert forall i :: 0 <= i < |groups| ==> tracked[i].rec.text == groups[i].rec.text;
    }
    KindVotesEffect(tracked, p, p.keys);
    forall i | 0 <= i < |groups| ensures VotedKind(tracked[i], p, p.keys) == VotedKind(groups[i], p, p.keys) {
      assert tracked[i].rec.text == groups[i].rec.text;
    }
  }

  // ---------------------------------------------------------------------
  // Pooled lists hold only ids and labels of the groups
  // ---------------------------------------------------------------------

  /** Every id and label in a pooled list is one of some group's. */
  ghost predicate DrawnFrom(p: Pools, groups: seq<Group>) {
    && (forall o, x :: 0 <= o < |p.tracks| && x in p.tracks[o] ==> exists m :: 0 <= m < |groups| && x in groups[m].tracks)
    && (forall o, x :: 0 <= o < |p.kinds| && x in p.kinds[o] ==> exists m :: 0 <= m < |groups| && x in groups[m].kinds)
  }

  lemma PoolMemberDrawn(p: Pools, c: string, m: nat, groups: seq<Group>)
    requires PoolsFit(p, |p.tracks|) && m < |p.tracks| && DrawnFrom(p, groups)
    ensures DrawnFrom(PoolMember(p, c, m), groups)
  {
  }

  lemma {:induction false} PoolClusterDrawn(p: Pools, c: string, members: seq<nat>, groups: seq<Group>)
    requires PoolsFit(p, |p.tracks|) && forall j :: 0 <= j < |members| ==> members[j] < |p.tracks|
    requires DrawnFrom(p, groups)
    ensures DrawnFrom(PoolCluster(p, c, members), groups)
  {
    if members != [] {
      PoolClusterDrawn(p, c, members[..|members| - 1], groups);
      PoolMemberDrawn(PoolCluster(p, c, members[..|members| - 1]), c, members[|members| - 1], groups);
    }
  }

  lemma {:induction false} PoolClustersDrawn(p: Pools, clusters: seq<Cluster>, groups: seq<Group>)
    requires PoolsFit(p, |p.tracks|) && MembersBelow(clusters, |p.tracks|)
    requires DrawnFrom(p, groups)
    ensures DrawnFrom(PoolClusters(p, clusters), groups)
  {
    if clusters != [] {
      var last := clusters[|clusters| - 1];
      PoolClustersDrawn(p, clusters[..|clusters| - 1], groups);
      PoolClusterDrawn(PoolClusters(p, clusters[..|clusters| - 1]), last.key, last.members, groups);
    }
  }

  /** A voted track id is the group's own or a positive id of some group;
      a voted label is the group's own or a non-empty label of some group. */
  lemma VotesDrawn(groups: seq<Group>, clusters: seq<Cluster>, g: Group)
    requires MembersBelow(clusters, |groups|)
    ensures var p := BlockPools(groups, clusters);
      && (VotedTrack(g, p, p.keys) == g.rec.trackId
          || (VotedTrack(g, p, p.keys) > 0 && exists m :: 0 <= m < |groups| && VotedTrack(g, p, p.keys) in groups[m].tracks))
      && (VotedKind(g, p, p.keys) == g.rec.kind
          || (|VotedKind(g, p, p.keys)| > 0 && exists m :: 0 <= m < |groups| && VotedKind(g, p, p.keys) in groups[m].kinds))
  {
    var p := BlockPools(groups, clusters);
    PoolClustersDrawn(InitialPools(groups), clusters, groups);
    var t := g.rec.text;
    if t in p.keys && PositiveTracks(p, t) != [] {
      assert Mode(PositiveTracks(p, t)) in p.tracks[p.owner[t]];
    }
    if t in p.keys && NonEmptyKinds(p, t) != [] {
      assert Mode(NonEmptyKinds(p, t)) in p.kinds[p.owner[t]];
    }
  }

  // ---------------------------------------------------------------------
  // Clusters and their heads
  // ---------------------------------------------------------------------

  /** The members of a cluster are exactly the groups at most one edit away from its key. */
  lemma {:induction false} NearIff(groups: seq<Group>, c: string, n: nat, j: nat)
    requires n <= |groups|
    ensures j in Near(groups, c, n) <==> j < n && Distance(groups[j].rec.text, c) <= 1
  {
    if n > 0 {
      NearIff(groups, c, n - 1, j);
    }
  }

  /** Each cluster of the dictionary belongs to a kept text and has all of
      that text's near groups as members. */
  lemma {:induction false} RawClustersAreNear(groups: seq<Group>, cs: seq<string>, k: nat)
    requires k < |RawClusters(groups, cs)|
    ensures RawClusters(groups, cs)[k].key in cs
    ensures RawClusters(groups, cs)[k].members == Near(groups, RawClusters(groups, cs)[k].key, |groups|)
  {
    var init := RawClusters(groups, cs[..|cs| - 1]);
    if k < |init| {
      RawClustersAreNear(groups, cs[..|cs| - 1], k);
    }
  }

  /** After sorting, the head of a cluster is observed at least as often as
      any other member. */
  lemma HeadMostFrequent(groups: seq<Group>, raw: seq<Cluster>, k: nat, j: nat)
    requires k < |raw| && MembersBelow(raw, |groups|) && j in raw[k].members
    ensures |SortClusters(groups, raw)[k].members| > 0
    ensures SortClusters(groups, raw)[k].members[0] < |groups|
    ensures SortClusters(groups, raw)[k].members[0] in raw[k].members
    ensures j < |groups| && groups[j].freq <= groups[SortClusters(groups, raw)[k].members[0]].freq
  {
    var sorted := SortClusters(groups, raw)[k].members;
    SortDescSortedPermutation(raw[k].members, FreqOf(groups));
    assert j in multiset(sorted);
    var i :| 0 <= i < |sorted| && sorted[i] == j;
    assert sorted[0] in multiset(raw[k].members);
    assert FreqOf(groups)(sorted[0]) >= FreqOf(groups)(sorted[i]) by {
      if i > 0 {
        assert NonIncreasing(sorted, FreqOf(groups));
      }
    }
  }

  /** Each candidate heads a cluster and has at least eight observations. */
  lemma {:induction false} CandidateHeads(groups: seq<Group>, clusters: seq<Cluster>, c: string)
    requires c in Candidates(groups, clusters)
    ensures exists k ::
      && 0 <= k < |clusters| && |clusters[k].members| > 0 && clusters[k].members[0] < |groups|
      && groups[clusters[k].members[0]].rec.text == c && groups[clusters[k].members[0]].freq >= MIN_PLATE_FREQUENCY_IN_BLOCK
  {
    var init := clusters[..|clusters| - 1];
    if c in Candidates(groups, init) {
      CandidateHeads(groups, init, c);
      var k :| 0 <= k < |init| && |init[k].members| > 0 && init[k].members[0] < |groups|
        && groups[init[k].members[0]].rec.text == c && groups[init[k].members[0]].freq >= MIN_PLATE_FREQUENCY_IN_BLOCK;
      assert clusters[k] == init[k];
    }
  }

  // ---------------------------------------------------------------------
  // What a window reports
  // ---------------------------------------------------------------------

  /** The texts of reported records. */
  function ReportedTexts(rs: seq<Counted>): (r: seq<string>)
    ensures |r| == |rs| && forall i :: 0 <= i < |rs| ==> r[i] == rs[i].rec.text
  {
    seq(|rs|, i requires 0 <= i < |rs| => rs[i].rec.text)
  }

  lemma ReportedTextsAppend(a: seq<Counted>, b: seq<Counted>)
    ensures ReportedTexts(a + b) == ReportedTexts(a) + ReportedTexts(b)
  {
  }

  /** Looking a text up in groups with the same texts gives the same index. */
  lemma {:induction false} IndexOfSameTexts(groups: seq<Group>, other: seq<Group>, t: string)
    requires |other| == |groups|
    requires forall j :: 0 <= j < |groups| ==> other[j].rec.text == groups[j].rec.text
    ensures IndexOf(other, t) == IndexOf(groups, t)
  {
    if groups != [] {
      var n := |groups| - 1;
      IndexOfSameTexts(groups[..n], other[..n], t);
    }
  }

  /** When every text is found, record i is the group of text i. */
  lemma {:induction false} RecordsOfFound(groups: seq<Group>, texts: seq<string>)
    requires forall t :: t in texts ==> IndexOf(groups, t).Some?
    ensures |RecordsOf(groups, texts)| == |texts|
    ensures forall i :: 0 <= i < |texts| ==>
      RecordsOf(groups, texts)[i] == Counted(groups[IndexOf(groups, texts[i]).value].rec, groups[IndexOf(groups, texts[i]).value].freq)
  {
    if texts != [] {
      var init := texts[..|texts| - 1];
      var t := texts[|texts| - 1];
      assert forall u :: u in init ==> u in texts;
      RecordsOfFound(groups, init);
      assert t in texts;
      var j := IndexOf(groups, t).value;
      var prefix := RecordsOf(groups, init);
      assert RecordsOf(groups, texts) == prefix + [Counted(groups[j].rec, groups[j].freq)];
      forall i | 0 <= i < |init|
        ensures RecordsOf(groups, texts)[i] == Counted(groups[IndexOf(groups, texts[i]).value].rec, groups[IndexOf(groups, texts[i]).value].freq)
      {
        assert texts[i] == init[i];
      }
    }
  }

  /** Looking up texts of the groups in groups that differ from them only
      in track ids and labels. */
  lemma RecordsOfVoted(groups: seq<Group>, voted: seq<Group>, texts: seq<string>)
    requires |voted| == |groups|
    requires forall j :: 0 <= j < |groups| ==> voted[j].rec.text == groups[j].rec.text && voted[j].freq == groups[j].freq
    requires forall t :: t in texts ==> t in Texts(groups)
    ensures ReportedTexts(RecordsOf(voted, texts)) == texts
    ensures forall i :: 0 <= i < |texts| ==>
      && IndexOf(groups, texts[i]).Some?
      && RecordsOf(voted, texts)[i] == Counted(voted[IndexOf(groups, texts[i]).value].rec, groups[IndexOf(groups, texts[i]).value].freq)
  {
    forall t | t in texts ensures IndexOf(voted, t) == IndexOf(groups, t) && IndexOf(groups, t).Some? {
      IndexOfSameTexts(groups, voted, t);
      var j :| 0 <= j < |groups| && Texts(groups)[j] == t;
    }
    RecordsOfFound(voted, texts);
    var rs := RecordsOf(voted, texts);
    forall i | 0 <= i < |texts|
      ensures && IndexOf(groups, texts[i]).Some?
              && rs[i] == Counted(voted[IndexOf(groups, texts[i]).value].rec, groups[IndexOf(groups, texts[i]).value].freq)
              && ReportedTexts(rs)[i] == texts[i]
    {
      var t := texts[i];
      assert t in texts;
      var j := IndexOf(groups, t).value;
      assert IndexOf(voted, t) == Some(j);
      assert rs[i] == Counted(voted[j].rec, voted[j].freq);
    }
  }

  /** Each reported record is the voted record of the group of a kept candidate. */
  lemma ReportedGroups(groups: seq<Group>, clusters: seq<Cluster>, prev: seq<string>)
    requires MembersBelow(clusters, |groups|) && DistinctTexts(groups)
    ensures var kept := RmDuplicates(Candidates(groups, clusters), prev);
      && ReportedTexts(RecordsOf(BlockVotes(groups, clusters), kept)) == kept
      && forall i :: 0 <= i < |kept| ==>
        && kept[i] in Candidates(groups, clusters)
        && IndexOf(groups, kept[i]).Some?
        && RecordsOf(BlockVotes(groups, clusters), kept)[i]
           == Counted(BlockVotes(groups, clusters)[IndexOf(groups, kept[i]).value].rec, groups[IndexOf(groups, kept[i]).value].freq)
  {
    var cands := Candidates(groups, clusters);
    var kept := RmDuplicates(cands, prev);
    var voted := BlockVotes(groups, clusters);
    assert forall j :: 0 <= j < |groups| ==> voted[j].rec.text == groups[j].rec.text && voted[j].freq == groups[j].freq by {
      BlockVotesEffect(groups, clusters);
    }
    assert forall t :: t in kept ==> t in cands && t in Texts(groups) by {
      RmDuplicatesSpec(cands, prev);
      CandidatesAreTexts(groups, clusters);
    }
    RecordsOfVoted(groups, voted, kept);
    forall i | 0 <= i < |kept| ensures kept[i] in cands {
      assert kept[i] in kept;
    }
  }

  lemma DistinctGroups(block: seq<Slot>)
    ensures DistinctTexts(GroupsOf(block))
  {
    GroupsOfObservations(block);
  }

  /** The reported texts are longest first, and none is within one edit of
      an earlier report or of a previously reported text, unless it cannot
      absorb (an unknown-vehicle label). */
  lemma ReportsNotDuplicated(block: seq<Slot>, prev: seq<string>)
    ensures NonIncreasing(ReportedTexts(ClusterBlockPlates(block, prev)), Length)
    ensures var r := ReportedTexts(ClusterBlockPlates(block, prev));
      forall j :: 0 <= j < |r| ==> !AbsorbedBy(r[j], r[..j] + prev)
  {
    var groups := GroupsOf(block);
    var clusters := BlockClusters(groups, prev);
    var kept := RmDuplicates(Candidates(groups, clusters), prev);
    DistinctGroups(block);
    ReportedGroups(groups, clusters, prev);
    RmDuplicatesSpec(Candidates(groups, clusters), prev);
    assert ClusterBlockPlates(block, prev) == RecordsOf(BlockVotes(groups, clusters), kept);
  }

  /** A reported record is the first record of its text in the window, up
      to its track id and label; its count is the number of records with
      its text, which is at least eight. */
  lemma ReportsCountObservations(block: seq<Slot>, prev: seq<string>)
    ensures forall i :: 0 <= i < |ClusterBlockPlates(block, prev)| ==>
      var rep := ClusterBlockPlates(block, prev)[i];
      var obs := Observations(block, rep.rec.text);
      && |obs| >= MIN_PLATE_FREQUENCY_IN_BLOCK && rep.freq == |obs|
      && rep.rec == obs[0].(trackId := rep.rec.trackId, kind := rep.rec.kind)
  {
    var groups := GroupsOf(block);
    var clusters := BlockClusters(groups, prev);
    var reps := ClusterBlockPlates(block, prev);
    GroupsOfObservations(block);
    DistinctGroups(block);
    BlockVotesEffect(groups, clusters);
    forall i | 0 <= i < |reps|
      ensures var obs := Observations(block, reps[i].rec.text);
        && |obs| >= MIN_PLATE_FREQUENCY_IN_BLOCK && reps[i].freq == |obs|
        && reps[i].rec == obs[0].(trackId := reps[i].rec.trackId, kind := reps[i].rec.kind)
    {
      var k := ReportHead(block, prev, i);
      var head := clusters[k].members[0];
      assert Summarises(groups[head], Observations(block, groups[head].rec.text));
    }
  }

  /** A cluster head is the most frequent group within one edit of the
      cluster's key, itself a text of the groups. */
  lemma ClusterHeadMostFrequent(groups: seq<Group>, prev: seq<string>, k: nat)
    requires k < |BlockClusters(groups, prev)|
    ensures var head := BlockClusters(groups, prev)[k].members[0];
      var key := BlockClusters(groups, prev)[k].key;
      && key in Texts(groups)
      && Distance(groups[head].rec.text, key) <= 1
      && forall m :: 0 <= m < |groups| && Distance(groups[m].rec.text, key) <= 1 ==> groups[m].freq <= groups[head].freq
  {
    var keys := RmDuplicates(Texts(groups), prev);
    var raw := RawClusters(groups, keys);
    var key := raw[k].key;
    RawClustersAreNear(groups, keys, k);
    RmDuplicatesSpec(Texts(groups), prev);
    var sorted := SortClusters(groups, raw);
    var head := sorted[k].members[0];
    RawClustersNonEmpty(groups, keys);
    HeadMostFrequent(groups, raw, k, raw[k].members[0]);
    NearIff(groups, key, |groups|, head);
    forall m | 0 <= m < |groups| && Distance(groups[m].rec.text, key) <= 1 ensures groups[m].freq <= groups[head].freq {
      NearIff(groups, key, |groups|, m);
      HeadMostFrequent(groups, raw, k, m);
    }
  }

  /** The same in terms of the records of the window. */
  lemma ClusterHeadMostObserved(block: seq<Slot>, prev: seq<string>, k: nat)
    requires k < |BlockClusters(GroupsOf(block), prev)|
    ensures var groups := GroupsOf(block);
      var head := BlockClusters(groups, prev)[k].members[0];
      var key := BlockClusters(groups, prev)[k].key;
      && Observations(block, key) != []
      && Distance(groups[head].rec.text, key) <= 1
      && forall u :: Distance(u, key) <= 1 ==> |Observations(block, u)| <= groups[head].freq
  {
    var groups := GroupsOf(block);
    var key := BlockClusters(groups, prev)[k].key;
    var head := BlockClusters(groups, prev)[k].members[0];
    ClusterHeadMostFrequent(groups, prev, k);
    GroupsOfObservations(block);
    var j :| 0 <= j < |groups| && Texts(groups)[j] == key;
    assert Summarises(groups[j], Observations(block, groups[j].rec.text));
    forall u | Distance(u, key) <= 1 ensures |Observations(block, u)| <= groups[head].freq {
      if Observations(block, u) != [] {
        var m := IndexOf(groups, u).value;
        assert Summarises(groups[m], Observations(block, groups[m].rec.text));
      }
    }
  }

  /** Text t, counted freq times, is at least as frequent as every text
      of the window within one edit of key, and key is a text of the window
      within one edit of t. */
  ghost predicate MostFrequentNear(block: seq<Slot>, t: string, freq: nat, key: string) {
    && Observations(block, key) != []
    && Distance(t, key) <= 1
    && forall u :: Distance(u, key) <= 1 ==> |Observations(block, u)| <= freq
  }

  /** Kept candidate i heads some cluster k whose head group has that
      text and at least the minimum count. */
  lemma KeptHead(groups: seq<Group>, clusters: seq<Cluster>, prev: seq<string>, i: nat) returns (k: nat)
    requires MembersBelow(clusters, |groups|)
    requires i < |RmDuplicates(Candidates(groups, clusters), prev)|
    ensures k < |clusters| && |clusters[k].members| > 0 && clusters[k].members[0] < |groups|
    ensures groups[clusters[k].members[0]].rec.text == RmDuplicates(Candidates(groups, clusters), prev)[i]
    ensures groups[clusters[k].members[0]].freq >= MIN_PLATE_FREQUENCY_IN_BLOCK
  {
    var cands := Candidates(groups, clusters);
    var kept := RmDuplicates(cands, prev);
    assert kept[i] in cands by {
      RmDuplicatesSpec(cands, prev);
      assert kept[i] in kept;
    }
    CandidateHeads(groups, clusters, kept[i]);
    k :| && 0 <= k < |clusters| && |clusters[k].members| > 0 && clusters[k].members[0] < |groups|
      && groups[clusters[k].members[0]].rec.text == kept[i] && groups[clusters[k].members[0]].freq >= MIN_PLATE_FREQUENCY_IN_BLOCK;
  }

  /** Report i is the head of some cluster k: the group of the head has
      the report's text and count, and that count is at least the minimum. */
  lemma ReportHead(block: seq<Slot>, prev: seq<string>, i: nat) returns (k: nat)
    requires i < |ClusterBlockPlates(block, prev)|
    ensures k < |BlockClusters(GroupsOf(block), prev)|
    ensures var head := BlockClusters(GroupsOf(block), prev)[k].members[0];
      && GroupsOf(block)[head].rec.text == ClusterBlockPlates(block, prev)[i].rec.text
      && GroupsOf(block)[head].freq == ClusterBlockPlates(block, prev)[i].freq
      && GroupsOf(block)[head].freq >= MIN_PLATE_FREQUENCY_IN_BLOCK
      && ClusterBlockPlates(block, prev)[i].rec == BlockVotes(GroupsOf(block), BlockClusters(GroupsOf(block), prev))[head].rec
  {
    var groups := GroupsOf(block);
    var clusters := BlockClusters(groups, prev);
    var kept := RmDuplicates(Candidates(groups, clusters), prev);
    var voted := BlockVotes(groups, clusters);
    var reps := RecordsOf(voted, kept);
    assert reps == ClusterBlockPlates(block, prev);
    DistinctGroups(block);
    ReportedGroups(groups, clusters, prev);
    k := KeptHead(groups, clusters, prev, i);
    var head := clusters[k].members[0];
    IndexOfDistinct(groups, head);
    assert reps[i] == Counted(voted[head].rec, groups[head].freq);
    assert reps[i].rec.text == kept[i] by {
      assert ReportedTexts(reps)[i] == reps[i].rec.text;
    }
  }

  /** Report i is the most frequent text within one edit of some text of
      the window. */
  lemma ReportMostFrequent(block: seq<Slot>, prev: seq<string>, i: nat)
    requires i < |ClusterBlockPlates(block, prev)|
    ensures exists key :: MostFrequentNear(block, ClusterBlockPlates(block, prev)[i].rec.text, ClusterBlockPlates(block, prev)[i].freq, key)
  {
    var k := ReportHead(block, prev, i);
    ClusterHeadMostObserved(block, prev, k);
    var key := BlockClusters(GroupsOf(block), prev)[k].key;
    assert MostFrequentNear(block, ClusterBlockPlates(block, prev)[i].rec.text, ClusterBlockPlates(block, prev)[i].freq, key);
  }

  /** The ids and labels listed by a group are those of records of the window. */
  lemma GroupListsObserved(block: seq<Slot>, m: nat)
    requires m < |GroupsOf(block)|
    ensures forall x :: x in GroupsOf(block)[m].tracks ==> exists r :: Filled(r) in block && r.trackId == x
    ensures forall x :: x in GroupsOf(block)[m].kinds ==> exists r :: Filled(r) in block && r.kind == x
  {
    var g := GroupsOf(block)[m];
    GroupsOfObservations(block);
    var obs := Observations(block, g.rec.text);
    assert Summarises(g, obs);
    ObservationsFromBlock(block, g.rec.text);
    forall x | x in g.tracks ensures exists r :: Filled(r) in block && r.trackId == x {
      var q :| 0 <= q < |obs| && TrackIdsOf(obs)[q] == x;
      assert obs[q] in obs;
    }
    forall x | x in g.kinds ensures exists r :: Filled(r) in block && r.kind == x {
      var q :| 0 <= q < |obs| && KindsOf(obs)[q] == x;
      assert obs[q] in obs;
    }
  }

  /** Report i carries the track id of the first record of its text, or a
      positive track id some record of the window carries; likewise its
      label is the first record's or a non-empty label of the window. */
  lemma ReportVotedIds(block: seq<Slot>, prev: seq<string>, i: nat)
    requires i < |ClusterBlockPlates(block, prev)|
    ensures var rep := ClusterBlockPlates(block, prev)[i];
      var obs := Observations(block, rep.rec.text);
      && obs != []
      && (rep.rec.trackId == obs[0].trackId || (rep.rec.trackId > 0 && exists r :: Filled(r) in block && r.trackId == rep.rec.trackId))
      && (rep.rec.kind == obs[0].kind || (|rep.rec.kind| > 0 && exists r :: Filled(r) in block && r.kind == rep.rec.kind))
  {
    var groups := GroupsOf(block);
    var clusters := BlockClusters(groups, prev);
    var rep := ClusterBlockPlates(block, prev)[i];
    var k := ReportHead(block, prev, i);
    var g := clusters[k].members[0];
    DistinctGroups(block);
    BlockVotesEffect(groups, clusters);
    var p := BlockPools(groups, clusters);
    assert rep.rec == groups[g].rec.(trackId := VotedTrack(groups[g], p, p.keys), kind := VotedKind(groups[g], p, p.keys));
    assert groups[g].rec == Observations(block, rep.rec.text)[0] by {
      GroupsOfObservations(block);
      assert Summarises(groups[g], Observations(block, groups[g].rec.text));
    }
    VotesDrawn(groups, clusters, groups[g]);
    if rep.rec.trackId != groups[g].rec.trackId {
      var m :| 0 <= m < |groups| && rep.rec.trackId in groups[m].tracks;
      GroupListsObserved(block, m);
    }
    if rep.rec.kind != groups[g].rec.kind {
      var m :| 0 <= m < |groups| && rep.rec.kind in groups[m].kinds;
      GroupListsObserved(block, m);
    }
  }

  /** Every reported text is that of a record of the window, so none is empty. */
  lemma ReportedTextsPresent(block: seq<Slot>, prev: seq<string>)
    requires TextsPresent(block)
    ensures NonEmptyTexts(ReportedTexts(ClusterBlockPlates(block, prev)))
  {
    var groups := GroupsOf(block);
    var clusters := BlockClusters(groups, prev);
    var kept := RmDuplicates(Candidates(groups, clusters), prev);
    DistinctGroups(block);
    ReportedGroups(groups, clusters, prev);
    assert ClusterBlockPlates(block, prev) == RecordsOf(BlockVotes(groups, clusters), kept);
    GroupTextsObserved(block);
    CandidatesAreTexts(groups, clusters);
    forall i | 0 <= i < |kept| ensures |kept[i]| > 0 {
      var j :| 0 <= j < |groups| && Texts(groups)[j] == kept[i];
    }
  }

  /** Every slot of the window is empty. */
  predicate NoRecords(block: seq<Slot>) {
    forall i :: 0 <= i < |block| ==> block[i] == Empty
  }

  /** A window without records reports nothing. */
  lemma {:induction false} NoRecordsNoGroups(block: seq<Slot>)
    requires NoRecords(block)
    ensures GroupsOf(block) == []
  {
    if block != [] {
      NoRecordsNoGroups(block[..|block| - 1]);
    }
  }

  lemma NoRecordsNoReports(block: seq<Slot>, prev: seq<string>)
    requires NoRecords(block)
    ensures ClusterBlockPlates(block, prev) == []
  {
    NoRecordsNoGroups(block);
    RmDuplicatesSpec([], prev);
    RmDuplicatesSpec(Texts([]), prev);
  }
}
