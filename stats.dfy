/** The summary handler `GET /stats/summary` of routes/views.js,
    routes/actions.js and routes/goals.js: the record count, the number of
    distinct values of each string path, and for Actions and Goals the
    `$group`/`$sort` ranking of the discriminator. */
module Stats {
  import opened Values
  import opened Schema

  /** `$limit: 10` of the popularity ranking. */
  const PopularLimit: nat := 10

  /** One `$group` bucket: a discriminator value and how many records hold it. */
  datatype Group = Group(key: Option<string>, count: nat)

  /** The stats response. The fields that exist only for some kinds are
      options: `uniqueTags` and `popular` for Actions and Goals (`uniqueActions`
      and `popularActions`, `uniqueGoals` and `popularGoals`), `breakdown` for
      Goals only (`goalConversionRates`). */
  datatype Summary = Summary(
    total: nat,
    uniqueVisitors: nat,
    uniqueSources: nat,
    uniqueTags: Option<nat>,
    uniqueUrls: nat,
    popular: Option<seq<Group>>,
    breakdown: Option<seq<Group>>)

  /** `distinct(f)`: the values path `f` takes across the records that hold it. */
  ghost function Distinct(records: map<Id, Record>, f: Field): (d: set<string>)
    ensures forall id :: id in records && RecordText(records[id], f).Some? ==> RecordText(records[id], f).value in d
    ensures forall v :: v in d ==> exists id :: id in records && RecordText(records[id], f) == Some(v)
  {
    set id | id in records && RecordText(records[id], f).Some? :: RecordText(records[id], f).value
  }

  /** The `_id` values `$group: {_id: '$tag'}` produces; a record without the
      path falls in the `null` bucket. */
  ghost function GroupKeys(records: map<Id, Record>): set<Option<string>>
  {
    set id | id in records :: records[id].tag
  }

  /** The records whose discriminator is `key`. */
  ghost function Holding(records: map<Id, Record>, key: Option<string>): set<Id>
  {
    set id | id in records && records[id].tag == key
  }

  /** How many records hold discriminator `key`: the `count: {$sum: 1}` of its bucket. */
  ghost function CountOf(records: map<Id, Record>, key: Option<string>): (c: nat)
    ensures c <= |records|
  {
    SubsetSize(Holding(records, key), records.Keys);
    |Holding(records, key)|
  }

  /** The records whose discriminator is one of `keys`. */
  ghost function HoldingAny(records: map<Id, Record>, keys: set<Option<string>>): set<Id>
  {
    set id | id in records && records[id].tag in keys
  }

  function SumCounts(gs: seq<Group>): nat
  {
    if gs == [] then 0 else gs[0].count + SumCounts(gs[1..])
  }

  function KeysOf(gs: seq<Group>): set<Option<string>>
  {
    if gs == [] then {} else {gs[0].key} + KeysOf(gs[1..])
  }

  /** Counts never increase along the sequence. */
  predicate Descending(c: seq<nat>)
  {
    forall i, j :: 0 <= i < j < |c| ==> c[i] >= c[j]
  }

  /** Groups are listed by count, largest first. */
  predicate ByCountDescending(gs: seq<Group>)
  {
    Descending(Counts(gs))
  }

  /** `top` is a most frequent key among `keys`. */
  ghost predicate MostFrequent(records: map<Id, Record>, keys: set<Option<string>>, top: Option<string>)
  {
    top in keys && forall k :: k in keys ==> CountOf(records, k) <= CountOf(records, top)
  }

  /** A finite non-empty set of keys has a most frequent one. */
  lemma {:induction false} MostFrequentExists(records: map<Id, Record>, keys: set<Option<string>>)
    requires keys != {}
    ensures exists top :: MostFrequent(records, keys, top)
    decreases keys
  {
    var y :| y in keys;
    if keys != {y} {
      MostFrequentExists(records, keys - {y});
      var top :| MostFrequent(records, keys - {y}, top);
      if CountOf(records, y) > CountOf(records, top) {
        assert MostFrequent(records, keys, y);
      } else {
        assert MostFrequent(records, keys, top);
      }
    } else {
      assert MostFrequent(records, keys, y);
    }
  }

  lemma {:induction false} KeysOfHas(gs: seq<Group>, i: nat)
    requires i < |gs|
    ensures gs[i].key in KeysOf(gs)
    decreases |gs|
  {
    if i > 0 {
      KeysOfHas(gs[1..], i - 1);
    }
  }

  /** Each key a sequence of buckets holds is at one of its positions. */
  lemma {:induction false} KeysOfIndex(gs: seq<Group>, k: Option<string>)
    requires k in KeysOf(gs)
    ensures exists j :: 0 <= j < |gs| && gs[j].key == k
    decreases |gs|
  {
    if gs[0].key != k {
      KeysOfIndex(gs[1..], k);
      var j :| 0 <= j < |gs[1..]| && gs[1..][j].key == k;
      assert gs[j + 1].key == k;
    }
  }

  /** Each key at most once, each bucket with the record count of its key. */
  ghost predicate Bucketed(records: map<Id, Record>, gs: seq<Group>)
  {
    && (forall i, j :: 0 <= i < j < |gs| ==> gs[i].key != gs[j].key)
    && (forall i :: 0 <= i < |gs| ==> gs[i].count == CountOf(records, gs[i].key))
  }

  /** The buckets after the first of a bucketed sequence are bucketed and
      hold every key but the first. */
  lemma {:induction false} BucketedTail(records: map<Id, Record>, gs: seq<Group>)
    requires Bucketed(records, gs) && gs != []
    ensures Bucketed(records, gs[1..])
    ensures gs[0].key !in KeysOf(gs[1..])
    ensures KeysOf(gs[1..]) == KeysOf(gs) - {gs[0].key}
  {
    var rest := gs[1..];
    assert forall i :: 0 <= i < |rest| ==> rest[i] == gs[i + 1];
    if gs[0].key in KeysOf(rest) {
      KeysOfIndex(rest, gs[0].key);
    }
  }

  /** A bucketed sequence has as many buckets as keys. */
  lemma {:induction false} KeysOfSize(records: map<Id, Record>, gs: seq<Group>)
    requires Bucketed(records, gs)
    ensures |KeysOf(gs)| == |gs|
    decreases |gs|
  {
    if gs != [] {
      BucketedTail(records, gs);
      KeysOfSize(records, gs[1..]);
    }
  }

  /** One result `$group: {_id: '$tag', count: {$sum: 1}}` followed by
      `$sort: {count: -1}` may return: one bucket per key with its record
      count, most frequent first. Buckets with equal counts may come in any
      order, and two pipelines may order them differently. */
  ghost predicate IsRanking(records: map<Id, Record>, gs: seq<Group>)
  {
    KeysOf(gs) == GroupKeys(records) && Bucketed(records, gs) && ByCountDescending(gs)
  }

  /** A ranking of `keys`: the buckets in the order of a most frequent key
      first (see `RankSpec`). */
  ghost function Rank(records: map<Id, Record>, keys: set<Option<string>>): (gs: seq<Group>)
    ensures |gs| == |keys| && KeysOf(gs) == keys
    decreases keys
  {
    if keys == {} then []
    else
      MostFrequentExists(records, keys);
      var top :| MostFrequent(records, keys, top);
      [Group(top, CountOf(records, top))] + Rank(records, keys - {top})
  }

  /** Each bucket of the ranking appears once, carries the record count of its
      key, and the counts never increase. */
  lemma {:induction false} RankSpec(records: map<Id, Record>, keys: set<Option<string>>)
    ensures Bucketed(records, Rank(records, keys)) && ByCountDescending(Rank(records, keys))
    decreases keys
  {
    if keys != {} {
      var gs := Rank(records, keys);
      var top := gs[0].key;
      var rest := Rank(records, keys - {top});
      assert MostFrequent(records, keys, top) && gs == [Group(top, CountOf(records, top))] + rest;
      RankSpec(records, keys - {top});
      PrependTop(records, keys, top, rest);
    }
  }

  /** Putting the bucket of a most frequent key in front of a ranking of the
      other keys keeps the ranking's properties. */
  lemma {:induction false} PrependTop(records: map<Id, Record>, keys: set<Option<string>>, top: Option<string>, rest: seq<Group>)
    requires MostFrequent(records, keys, top)
    requires KeysOf(rest) == keys - {top}
    requires Bucketed(records, rest) && ByCountDescending(rest)
    ensures var gs := [Group(top, CountOf(records, top))] + rest;
      Bucketed(records, gs) && ByCountDescending(gs)
  {
    var gs := [Group(top, CountOf(records, top))] + rest;
    forall j | 1 <= j < |gs|
      ensures gs[j] == rest[j - 1] && gs[j].key != top && gs[j].count <= gs[0].count
    {
      KeysOfHas(rest, j - 1);
    }
    forall i, j | 0 <= i < j < |gs|
      ensures gs[i].key != gs[j].key && gs[i].count >= gs[j].count
    {
      if i > 0 {
        assert gs[i] == rest[i - 1] && gs[j] == rest[j - 1];
      }
    }
  }

  /** The records holding one of `keys` split into those holding `top` and
      those holding one of the other keys. */
  lemma {:induction false} HoldingSplit(records: map<Id, Record>, keys: set<Option<string>>, top: Option<string>)
    requires top in keys
    ensures |HoldingAny(records, keys)| == CountOf(records, top) + |HoldingAny(records, keys - {top})|
  {
    var here, others := Holding(records, top), HoldingAny(records, keys - {top});
    assert HoldingAny(records, keys) == here + others;
    assert here * others == {};
  }

  /** Every record falls in the bucket of its own discriminator. */
  lemma {:induction false} GroupsCoverAll(records: map<Id, Record>)
    ensures HoldingAny(records, GroupKeys(records)) == records.Keys
  {
    forall id | id in records ensures id in HoldingAny(records, GroupKeys(records)) {
      assert records[id].tag in GroupKeys(records);
    }
  }

  /** Each key of `$group` holds at least one record. */
  lemma {:induction false} GroupsNonEmpty(records: map<Id, Record>, key: Option<string>)
    requires key in GroupKeys(records)
    ensures CountOf(records, key) >= 1
  {
    var id :| id in records && records[id].tag == key;
    assert id in Holding(records, key);
  }

  /** There are no more distinct values of a path than there are records. */
  lemma {:induction false} DistinctBound(records: map<Id, Record>, f: Field)
    ensures |Distinct(records, f)| <= |records|
    decreases |records|
  {
    if |records| > 0 {
      var id :| id in records;
      var smaller := records - {id};
      assert |smaller| == |records| - 1;
      DistinctBound(smaller, f);
      var v := RecordText(records[id], f);
      var extra := if v.Some? then {v.value} else {};
      DistinctRemove(records, id, f);
      SubsetSize(Distinct(records, f), Distinct(smaller, f) + extra);
    }
  }

  /** Removing one record loses at most that record's value. */
  lemma {:induction false} DistinctRemove(records: map<Id, Record>, id: Id, f: Field)
    requires id in records
    ensures var v := RecordText(records[id], f);
      Distinct(records, f) <= Distinct(records - {id}, f) + (if v.Some? then {v.value} else {})
  {
    var smaller := records - {id};
    var v := RecordText(records[id], f);
    forall x | x in Distinct(records, f) ensures x in Distinct(smaller, f) + (if v.Some? then {v.value} else {}) {
      var y :| y in records && RecordText(records[y], f).Some? && RecordText(records[y], f).value == x;
      if y != id {
        assert y in smaller;
      }
    }
  }

  /** A path the schema declares takes between one (for a non-empty
      collection) and as many distinct values as there are records. */
  lemma {:induction false} DistinctRange(kind: Kind, records: map<Id, Record>, f: Field)
    requires AllWellFormed(kind, records) && f in TextFields(kind)
    ensures |Distinct(records, f)| <= |records|
    ensures |records| > 0 ==> |Distinct(records, f)| >= 1
  {
    DistinctBound(records, f);
    if |records| > 0 {
      var id :| id in records;
      assert WellFormed(kind, records[id]);
      DistinctNonEmpty(records, f, id);
    }
  }

  /** There is at least one distinct value of a path some record holds. */
  lemma {:induction false} DistinctNonEmpty(records: map<Id, Record>, f: Field, id: Id)
    requires id in records && RecordText(records[id], f).Some?
    ensures |Distinct(records, f)| >= 1
  {
    assert RecordText(records[id], f).value in Distinct(records, f);
  }

  lemma {:induction false} SubsetSize<T>(a: set<T>, b: set<T>)
    requires a <= b
    ensures |a| <= |b|
  {
    assert b == a + (b - a);
  }

  /** Wrapping distinct strings in `Some` keeps them distinct. */
  lemma {:induction false} SomeImageSize(vs: set<string>)
    ensures |set v | v in vs :: Some(v)| == |vs|
    decreases vs
  {
    if vs != {} {
      var x :| x in vs;
      SomeImageSize(vs - {x});
      assert (set v | v in vs :: Some(v)) == (set v | v in vs - {x} :: Some(v)) + {Some(x)};
    }
  }

  /** For a collection that satisfies its schema, the `$group` keys are the
      distinct discriminator values. */
  lemma {:induction false} GroupKeysAreDistinctTags(kind: Kind, records: map<Id, Record>)
    requires kind.HasTag() && AllWellFormed(kind, records)
    ensures GroupKeys(records) == set v | v in Distinct(records, Tag) :: Some(v)
    ensures |GroupKeys(records)| == |Distinct(records, Tag)|
  {
    var image := set v | v in Distinct(records, Tag) :: Some(v);
    forall k | k in GroupKeys(records) ensures k in image {
      var id :| id in records && records[id].tag == k;
      assert RecordText(records[id], Tag) == k;
      assert k.value in Distinct(records, Tag);
    }
    forall k | k in image ensures k in GroupKeys(records) {
      var v :| v in Distinct(records, Tag) && k == Some(v);
      var id :| id in records && RecordText(records[id], Tag).Some? && RecordText(records[id], Tag).value == v;
    }
    SomeImageSize(Distinct(records, Tag));
  }

  /** A ranking of a collection's discriminator exists: every pipeline has a
      result. */
  ghost function Ranking(records: map<Id, Record>): (gs: seq<Group>)
    ensures IsRanking(records, gs)
  {
    RankSpec(records, GroupKeys(records));
    Rank(records, GroupKeys(records))
  }

  /** The bucket counts of a bucketed sequence add up to the number of
      records whose discriminator is one of its keys. */
  lemma {:induction false} SumOfCounts(records: map<Id, Record>, gs: seq<Group>)
    requires Bucketed(records, gs)
    ensures SumCounts(gs) == |HoldingAny(records, KeysOf(gs))|
    decreases |gs|
  {
    if gs == [] {
      assert HoldingAny(records, KeysOf(gs)) == {};
    } else {
      BucketedTail(records, gs);
      SumOfCounts(records, gs[1..]);
      HoldingSplit(records, KeysOf(gs), gs[0].key);
    }
  }

  /** Any ranking: one bucket per group, each with its record count, at least
      one, most frequent first, the counts adding up to the number of
      records. */
  lemma {:induction false} RankingSpec(records: map<Id, Record>, gs: seq<Group>)
    requires IsRanking(records, gs)
    ensures |gs| == |GroupKeys(records)|
    ensures forall i :: 0 <= i < |gs| ==> gs[i].count >= 1
    ensures SumCounts(gs) == |records|
  {
    KeysOfSize(records, gs);
    assert SumCounts(gs) == |records| by {
      SumOfCounts(records, gs);
      GroupsCoverAll(records);
    }
    forall i | 0 <= i < |gs| ensures gs[i].count >= 1 {
      KeysOfHas(gs, i);
      GroupsNonEmpty(records, gs[i].key);
    }
  }

  /** In a valid collection a ranking has one bucket per distinct
      discriminator value. */
  lemma {:induction false} RankingKeys(kind: Kind, records: map<Id, Record>, gs: seq<Group>)
    requires kind.HasTag() && AllWellFormed(kind, records) && IsRanking(records, gs)
    ensures |gs| == |Distinct(records, Tag)|
    ensures KeysOf(gs) == set v | v in Distinct(records, Tag) :: Some(v)
  {
    GroupKeysAreDistinctTags(kind, records);
    RankingSize(kind, records, gs);
  }

  /** In a valid collection a ranking has as many buckets as there are
      distinct discriminator values. */
  lemma {:induction false} RankingSize(kind: Kind, records: map<Id, Record>, gs: seq<Group>)
    requires kind.HasTag() && AllWellFormed(kind, records) && IsRanking(records, gs)
    ensures |gs| == |Distinct(records, Tag)|
  {
    GroupKeysAreDistinctTags(kind, records);
    KeysOfSize(records, gs);
  }

  /** The bucket counts of a sequence of buckets, in order. */
  function Counts(gs: seq<Group>): (c: seq<nat>)
    ensures |c| == |gs| && forall i :: 0 <= i < |gs| ==> c[i] == gs[i].count
  {
    if gs == [] then [] else [gs[0].count] + Counts(gs[1..])
  }

  /** Some member of a non-empty set of keys. */
  ghost function Pick(keys: set<Option<string>>): (k: Option<string>)
    requires keys != {}
    ensures k in keys
  {
    var k :| k in keys; k
  }

  /** The record counts of `keys`, as a multiset. */
  ghost function CountBag(records: map<Id, Record>, keys: set<Option<string>>): multiset<nat>
    decreases keys
  {
    if keys == {} then multiset{}
    else multiset{CountOf(records, Pick(keys))} + CountBag(records, keys - {Pick(keys)})
  }

  /** Any key of the set can be taken out of the multiset first. */
  lemma {:induction false} CountBagRemove(records: map<Id, Record>, keys: set<Option<string>>, a: Option<string>)
    requires a in keys
    ensures CountBag(records, keys) == multiset{CountOf(records, a)} + CountBag(records, keys - {a})
    decreases keys
  {
    var k := Pick(keys);
    if k != a {
      var ca, ck := multiset{CountOf(records, a)}, multiset{CountOf(records, k)};
      calc {
        CountBag(records, keys);
        ck + CountBag(records, keys - {k});
        { CountBagRemove(records, keys - {k}, a); }
        ck + (ca + CountBag(records, keys - {k} - {a}));
        { assert keys - {k} - {a} == keys - {a} - {k}; }
        ca + (ck + CountBag(records, keys - {a} - {k}));
        { CountBagRemove(records, keys - {a}, k); }
        ca + CountBag(records, keys - {a});
      }
    }
  }

  /** The counts of a bucketed sequence are the record counts of its keys. */
  lemma {:induction false} CountsBag(records: map<Id, Record>, gs: seq<Group>)
    requires Bucketed(records, gs)
    ensures multiset(Counts(gs)) == CountBag(records, KeysOf(gs))
    decreases |gs|
  {
    if gs != [] {
      BucketedTail(records, gs);
      CountsBag(records, gs[1..]);
      CountBagRemove(records, KeysOf(gs), gs[0].key);
      assert Counts(gs) == [gs[0].count] + Counts(gs[1..]);
    }
  }

  /** The first element of a non-empty descending sequence is its largest. */
  lemma {:induction false} DescendingFirst(c: seq<nat>, x: nat)
    requires Descending(c) && x in multiset(c)
    ensures c != [] && x <= c[0]
  {
    var i :| 0 <= i < |c| && c[i] == x;
  }

  /** A non-empty sequence's elements are its first and those after it. */
  lemma {:induction false} MultisetSplit(c: seq<nat>)
    requires c != []
    ensures multiset(c) == multiset{c[0]} + multiset(c[1..])
  {
    assert c == [c[0]] + c[1..];
  }

  /** Two non-empty sequences with the same elements and the same first
      element have the same elements after it. */
  lemma {:induction false} TailsAgree(a: seq<nat>, b: seq<nat>)
    requires a != [] && b != [] && a[0] == b[0] && multiset(a) == multiset(b)
    ensures multiset(a[1..]) == multiset(b[1..])
  {
    MultisetSplit(a);
    MultisetSplit(b);
    assert multiset(a[1..]) == multiset(a) - multiset{a[0]};
    assert multiset(b[1..]) == multiset(b) - multiset{b[0]};
  }

  /** Two descending sequences with the same elements are equal. */
  lemma {:induction false} SortedBagsEqual(a: seq<nat>, b: seq<nat>)
    requires Descending(a) && Descending(b) && multiset(a) == multiset(b)
    ensures a == b
    decreases |a|
  {
    if a != [] {
      DescendingFirst(b, a[0]);
      DescendingFirst(a, b[0]);
      TailsAgree(a, b);
      SortedBagsEqual(a[1..], b[1..]);
      assert a == [a[0]] + a[1..] && b == [b[0]] + b[1..];
    } else {
      assert |b| == |multiset(b)| == 0;
    }
  }

  /** Two rankings of the same collection list the same counts in the same
      order: they differ at most in the order of keys with equal counts. */
  lemma {:induction false} RankingCounts(records: map<Id, Record>, gs: seq<Group>, ts: seq<Group>)
    requires IsRanking(records, gs) && IsRanking(records, ts)
    ensures |gs| == |ts|
    ensures forall i :: 0 <= i < |gs| ==> gs[i].count == ts[i].count
  {
    CountsBag(records, gs);
    CountsBag(records, ts);
    SortedBagsEqual(Counts(gs), Counts(ts));
  }

  /** The first `n` buckets of one ranking carry the first `n` counts of any
      other ranking. */
  lemma {:induction false} HeadCounts(records: map<Id, Record>, gs: seq<Group>, ts: seq<Group>, n: nat)
    requires IsRanking(records, gs) && IsRanking(records, ts)
    ensures var h := Head(gs, n);
      |h| <= |ts| && forall i :: 0 <= i < |h| ==> h[i].count == ts[i].count
  {
    RankingCounts(records, gs, ts);
  }

  /** `$limit: n` on a ranking. */
  function Head(gs: seq<Group>, n: nat): (h: seq<Group>)
    ensures |h| == if |gs| <= n then |gs| else n
    ensures h == gs[..|h|]
  {
    if |gs| <= n then gs else gs[..n]
  }

  /** The summary handler of `kind`. `top` is the ranking the popularity
      pipeline sorted before its `$limit: 10`, `rates` the one the conversion
      pipeline returned: each `aggregate` call orders equal counts its own
      way. */
  ghost function Summarize(kind: Kind, records: map<Id, Record>, top: seq<Group>, rates: seq<Group>): (s: Summary)
    requires kind.HasTag() ==> IsRanking(records, top)
    requires kind == Goals ==> IsRanking(records, rates)
    ensures s.total == |records|
    ensures s.uniqueTags.Some? <==> kind.HasTag()
    ensures s.popular.Some? <==> kind.HasTag()
    ensures s.breakdown.Some? <==> kind == Goals
  {
    Summary(
      |records|,
      |Distinct(records, Visitor)|,
      |Distinct(records, Source)|,
      if kind.HasTag() then Some(|Distinct(records, Tag)|) else None,
      |Distinct(records, Url)|,
      if kind.HasTag() then Some(Head(top, PopularLimit)) else None,
      if kind == Goals then Some(rates) else None)
  }

  /** `totalViews`, `totalActions`, `totalGoals` count every record, and each
      `unique*` count lies between one (for a non-empty collection) and that
      total. */
  lemma {:induction false} SummaryCounts(kind: Kind, records: map<Id, Record>, top: seq<Group>, rates: seq<Group>)
    requires AllWellFormed(kind, records)
    requires kind.HasTag() ==> IsRanking(records, top)
    requires kind == Goals ==> IsRanking(records, rates)
    ensures var s := Summarize(kind, records, top, rates);
      && s.uniqueVisitors <= s.total && s.uniqueSources <= s.total && s.uniqueUrls <= s.total
      && (s.total > 0 ==> s.uniqueVisitors >= 1 && s.uniqueSources >= 1 && s.uniqueUrls >= 1)
      && (s.uniqueTags.Some? ==> s.uniqueTags.value <= s.total && (s.total > 0 ==> s.uniqueTags.value >= 1))
  {
    var s := Summarize(kind, records, top, rates);
    assert s.uniqueVisitors == |Distinct(records, Visitor)| && s.uniqueSources == |Distinct(records, Source)|;
    assert s.uniqueUrls == |Distinct(records, Url)|;
    DistinctRange(kind, records, Visitor);
    DistinctRange(kind, records, Source);
    DistinctRange(kind, records, Url);
    if kind.HasTag() {
      assert s.uniqueTags.value == |Distinct(records, Tag)|;
      DistinctRange(kind, records, Tag);
    }
  }

  /** `goalConversionRates`: exactly one bucket per distinct goal, each with
      the number of goals that hold it, most frequent first, the counts adding
      up to `totalGoals`. */
  lemma {:induction false} BreakdownSpec(records: map<Id, Record>, top: seq<Group>, rates: seq<Group>)
    requires AllWellFormed(Goals, records) && IsRanking(records, top) && IsRanking(records, rates)
    ensures var s := Summarize(Goals, records, top, rates); var b := s.breakdown.value;
      && |b| == s.uniqueTags.value
      && KeysOf(b) == (set v | v in Distinct(records, Tag) :: Some(v))
      && (forall i, j :: 0 <= i < j < |b| ==> b[i].key != b[j].key)
      && (forall i :: 0 <= i < |b| ==> b[i].count == CountOf(records, b[i].key) && b[i].count >= 1)
      && ByCountDescending(b)
      && SumCounts(b) == s.total
  {
    var s := Summarize(Goals, records, top, rates);
    assert s.breakdown.value == rates;
    assert s.uniqueTags.value == |Distinct(records, Tag)|;
    RankingKeys(Goals, records, rates);
    RankingSpec(records, rates);
  }

  /** `popularActions` and `popularGoals` hold the first min(10, distinct
      values) buckets of their pipeline's ranking; for Goals their counts are
      the first counts of `goalConversionRates`, although buckets with equal
      counts may be listed in another order. */
  lemma {:induction false} PopularSpec(kind: Kind, records: map<Id, Record>, top: seq<Group>, rates: seq<Group>)
    requires kind.HasTag() && AllWellFormed(kind, records)
    requires IsRanking(records, top)
    requires kind == Goals ==> IsRanking(records, rates)
    ensures var s := Summarize(kind, records, top, rates); var p := s.popular.value;
      && |p| == (if s.uniqueTags.value <= PopularLimit then s.uniqueTags.value else PopularLimit)
      && p == top[..|p|]
      && (kind == Goals ==> |p| <= |s.breakdown.value|)
      && (kind == Goals ==> forall i :: 0 <= i < |p| ==> p[i].count == s.breakdown.value[i].count)
  {
    var s := Summarize(kind, records, top, rates);
    assert s.popular.value == Head(top, PopularLimit) && s.uniqueTags.value == |Distinct(records, Tag)|;
    RankingSize(kind, records, top);
    if kind == Goals {
      assert s.breakdown.value == rates;
      HeadCounts(records, top, rates, PopularLimit);
    }
  }

  /** The popularity ranking is most frequent first, each bucket carries its
      record count, and no bucket `$limit` leaves out counts more than one it
      keeps. */
  lemma {:induction false} PopularOrder(kind: Kind, records: map<Id, Record>, top: seq<Group>, rates: seq<Group>)
    requires kind.HasTag() && IsRanking(records, top)
    requires kind == Goals ==> IsRanking(records, rates)
    ensures var p := Summarize(kind, records, top, rates).popular.value;
      && ByCountDescending(p)
      && (forall i :: 0 <= i < |p| ==> p[i].count == CountOf(records, p[i].key))
      && (forall i, j :: 0 <= i < |p| <= j < |top| ==> top[j].count <= p[i].count)
  {
    var p := Head(top, PopularLimit);
    assert Summarize(kind, records, top, rates).popular.value == p;
    forall i | 0 <= i < |p| ensures p[i] == top[i] {
    }
    forall i, j | 0 <= i < |p| <= j < |top| ensures top[j].count <= p[i].count {
      assert p[i] == top[i];
    }
  }
}
