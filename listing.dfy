/** The list handler `GET /` of routes/views.js, routes/actions.js and
    routes/goals.js: an exact-match filter built from the query, the matching
    records newest first, one page of them, the match count and the page
    count. */
module Listing {
  import opened Values
  import opened Text
  import opened Schema

  /** `page = 1` and `limit = 10` when the query leaves them out. */
  const DefaultPage: nat := 1
  const DefaultLimit: nat := 10

  /** The query string of a list request. `tag` is `action` or `goal`. */
  datatype Query = Query(
    source: Option<string>,
    visitor: Option<string>,
    url: Option<string>,
    tag: Option<string>,
    page: Option<nat>,
    limit: Option<nat>)

  /** Page numbers and page sizes are positive integers. */
  predicate NumericQuery(q: Query)
  {
    (q.page.Some? ==> q.page.value >= 1) && (q.limit.Some? ==> q.limit.value >= 1)
  }

  /** The value a query gives a string path. */
  function QueryText(q: Query, f: Field): Option<string>
  {
    match f
    case Source => q.source
    case Url => q.url
    case Tag => q.tag
    case Visitor => q.visitor
    case Meta => None
  }

  /** The equality filter a handler builds: one entry for each string path of
      the kind whose query value is present and non-empty, holding that raw
      value. */
  function QueryFilter(kind: Kind, q: Query): (filter: map<Field, string>)
    ensures filter.Keys <= TextFields(kind)
    ensures forall f :: f in filter ==> QueryText(q, f) == Some(filter[f]) && filter[f] != ""
  {
    map f | f in TextFields(kind) && Filled(QueryText(q, f)) :: QueryText(q, f).value
  }

  /** A map with the keys of the query filter whose values are the query's
      is the query filter. */
  lemma {:induction false} FilterByFields(kind: Kind, q: Query, filter: map<Field, string>)
    requires forall f :: f in filter <==> f in TextFields(kind) && Filled(QueryText(q, f))
    requires forall f :: f in filter ==> QueryText(q, f) == Some(filter[f])
    ensures filter == QueryFilter(kind, q)
  {
  }

  /** `find(filter)` and `countDocuments(filter)` keep a record when it equals
      every value of the filter once that value has been cast by the path's
      schema type, whose `trim` setter also runs on query filters. */
  predicate Matches(r: Record, filter: map<Field, string>)
    ensures filter == map[] ==> Matches(r, filter)
    ensures Matches(r, filter) ==> forall f :: f in filter ==> RecordText(r, f).Some?
  {
    forall f :: f in filter ==> RecordText(r, f) == Some(Trim(filter[f]))
  }

  /** A record agrees with each present, non-empty value of a query, trimmed;
      the discriminator is only looked at for Actions and Goals. */
  predicate Satisfies(kind: Kind, q: Query, r: Record)
  {
    && (Filled(q.source) ==> r.source == Trim(q.source.value))
    && (Filled(q.visitor) ==> r.visitor == Trim(q.visitor.value))
    && (Filled(q.url) ==> r.url == Trim(q.url.value))
    && (kind.HasTag() && Filled(q.tag) ==> r.tag == Some(Trim(q.tag.value)))
  }

  /** A record matches the filter of a query exactly when it satisfies the
      query. */
  lemma {:induction false} FilterMeaning(kind: Kind, q: Query, r: Record)
    ensures Matches(r, QueryFilter(kind, q)) <==> Satisfies(kind, q, r)
  {
    var filter := QueryFilter(kind, q);
    if Matches(r, filter) {
      if Filled(q.source) { assert Source in filter; }
      if Filled(q.visitor) { assert Visitor in filter; }
      if Filled(q.url) { assert Url in filter; }
      if kind.HasTag() && Filled(q.tag) { assert Tag in filter; }
    }
  }

  /** The identifiers of the records that match `filter`. */
  ghost function MatchingIds(records: map<Id, Record>, filter: map<Field, string>): (ids: set<Id>)
    ensures ids <= records.Keys
  {
    set id | id in records && Matches(records[id], filter)
  }

  /** The identifiers listed in a sequence of entries. */
  function IdsOf(s: seq<Entry>): set<Id>
  {
    if s == [] then {} else {s[0].id} + IdsOf(s[1..])
  }

  lemma {:induction false} IdsOfHas(s: seq<Entry>, i: nat)
    requires i < |s|
    ensures s[i].id in IdsOf(s)
    decreases |s|
  {
    if i > 0 {
      IdsOfHas(s[1..], i - 1);
    }
  }

  /** Each identifier a sequence lists is at one of its positions. */
  lemma {:induction false} IdsOfIndex(s: seq<Entry>, x: Id)
    requires x in IdsOf(s)
    ensures exists j :: 0 <= j < |s| && s[j].id == x
    decreases |s|
  {
    if s[0].id != x {
      IdsOfIndex(s[1..], x);
      var j :| 0 <= j < |s[1..]| && s[1..][j].id == x;
      assert s[j + 1].id == x;
    }
  }

  /** Entries taken from `records`, each identifier at most once, newest first. */
  ghost predicate NewestFirst(records: map<Id, Record>, s: seq<Entry>)
  {
    && (forall i :: 0 <= i < |s| ==> s[i].id in records && records[s[i].id] == s[i].record)
    && (forall i, j :: 0 <= i < j < |s| ==> s[i].id != s[j].id)
    && (forall i, j :: 0 <= i < j < |s| ==> s[i].record.createdAt >= s[j].record.createdAt)
  }

  /** One result `find(filter).sort({createdAt: -1})` may return: every
      matching record once, newest first. Records created at the same time
      may come in any order, and two queries may order them differently. */
  ghost predicate SortedMatches(records: map<Id, Record>, filter: map<Field, string>, s: seq<Entry>)
  {
    |s| == |MatchingIds(records, filter)| && IdsOf(s) == MatchingIds(records, filter) && NewestFirst(records, s)
  }

  /** `a` comes before `b` in the sort `{createdAt: -1, _id: -1}`. */
  predicate Before(a: Entry, b: Entry)
  {
    a.record.createdAt > b.record.createdAt || (a.record.createdAt == b.record.createdAt && a.id > b.id)
  }

  /** Every entry comes before each later one in the sort
      `{createdAt: -1, _id: -1}`. */
  predicate TieBroken(s: seq<Entry>)
  {
    forall i, j :: 0 <= i < j < |s| ==> Before(s[i], s[j])
  }

  /** No two of the stored records `ids` names were created at the same time. */
  ghost predicate DistinctTimes(records: map<Id, Record>, ids: set<Id>)
  {
    forall x, y :: x in ids && y in ids && x in records && y in records && x != y ==>
      records[x].createdAt != records[y].createdAt
  }

  /** `top` comes before every other record `ids` names in the sort
      `{createdAt: -1, _id: -1}`. */
  ghost predicate FirstOf(records: map<Id, Record>, ids: set<Id>, top: Id)
    requires ids <= records.Keys && top in ids
  {
    forall x :: x in ids && x != top ==> Before(Entry(top, records[top]), Entry(x, records[x]))
  }

  /** A finite non-empty set of stored records has a first one in the sort
      `{createdAt: -1, _id: -1}`. */
  lemma {:induction false} FirstExists(records: map<Id, Record>, ids: set<Id>)
    requires ids != {} && ids <= records.Keys
    ensures exists top :: top in ids && FirstOf(records, ids, top)
    decreases ids
  {
    var y :| y in ids;
    if ids != {y} {
      FirstExists(records, ids - {y});
      var top :| top in ids - {y} && FirstOf(records, ids - {y}, top);
      if Before(Entry(y, records[y]), Entry(top, records[top])) {
        assert FirstOf(records, ids, y);
      } else {
        assert FirstOf(records, ids, top);
      }
    } else {
      assert FirstOf(records, ids, y);
    }
  }

  /** The records `ids` names in the sort `{createdAt: -1, _id: -1}`, which
      orders records created at the same time by identifier. */
  ghost function Ordered(records: map<Id, Record>, ids: set<Id>): (s: seq<Entry>)
    requires ids <= records.Keys
    ensures |s| == |ids| && IdsOf(s) == ids
    ensures NewestFirst(records, s) && TieBroken(s)
    decreases ids
  {
    if ids == {} then []
    else
      FirstExists(records, ids);
      var top :| top in ids && FirstOf(records, ids, top);
      var rest := Ordered(records, ids - {top});
      PrependFirst(records, ids, top, rest);
      [Entry(top, records[top])] + rest
  }

  /** Entries taken from `records` in the sort `{createdAt: -1, _id: -1}`
      are newest first, each identifier once. */
  lemma {:induction false} TieBrokenNewest(records: map<Id, Record>, s: seq<Entry>)
    requires forall i :: 0 <= i < |s| ==> s[i].id in records && records[s[i].id] == s[i].record
    requires TieBroken(s)
    ensures NewestFirst(records, s)
  {
  }

  /** An entry that comes before every entry of a sequence in sort order,
      put in front of it, keeps it in sort order. */
  lemma {:induction false} PrependBefore(e: Entry, rest: seq<Entry>)
    requires forall i :: 0 <= i < |rest| ==> Before(e, rest[i])
    requires TieBroken(rest)
    ensures TieBroken([e] + rest)
  {
    var s := [e] + rest;
    forall i, j | 0 <= i < j < |s|
      ensures Before(s[i], s[j])
    {
      assert s[j] == rest[j - 1];
      if i > 0 {
        assert s[i] == rest[i - 1];
      }
    }
  }

  /** Putting the first record in front of the others, in order, gives all
      of them in order. */
  lemma {:induction false} PrependFirst(records: map<Id, Record>, ids: set<Id>, top: Id, rest: seq<Entry>)
    requires ids <= records.Keys && top in ids
    requires FirstOf(records, ids, top)
    requires |rest| == |ids - {top}| && IdsOf(rest) == ids - {top}
    requires NewestFirst(records, rest) && TieBroken(rest)
    ensures var s := [Entry(top, records[top])] + rest;
      |s| == |ids| && IdsOf(s) == ids && NewestFirst(records, s) && TieBroken(s)
  {
    var s := [Entry(top, records[top])] + rest;
    assert s[1..] == rest;
    forall i | 0 <= i < |rest|
      ensures Before(s[0], rest[i])
    {
      IdsOfHas(rest, i);
      assert rest[i] == Entry(rest[i].id, records[rest[i].id]);
    }
    PrependBefore(s[0], rest);
    assert forall i :: 0 < i < |s| ==> s[i] == rest[i - 1];
    TieBrokenNewest(records, s);
  }

  /** The entries after the first of a sequence in the sort
      `{createdAt: -1, _id: -1}` are in that sort and list every identifier
      but the first. */
  lemma {:induction false} OrderTail(records: map<Id, Record>, s: seq<Entry>)
    requires s != [] && NewestFirst(records, s) && TieBroken(s)
    ensures NewestFirst(records, s[1..]) && TieBroken(s[1..])
    ensures IdsOf(s[1..]) == IdsOf(s) - {s[0].id}
  {
    if s[0].id in IdsOf(s[1..]) {
      IdsOfIndex(s[1..], s[0].id);
    }
  }

  /** Two sequences that list the same stored records in the sort
      `{createdAt: -1, _id: -1}` start with the same entry. */
  lemma {:induction false} OrderFirst(records: map<Id, Record>, s: seq<Entry>, t: seq<Entry>)
    requires s != [] && IdsOf(s) == IdsOf(t)
    requires NewestFirst(records, s) && NewestFirst(records, t)
    requires TieBroken(s) && TieBroken(t)
    ensures t != [] && s[0] == t[0]
  {
    IdsOfHas(s, 0);
    IdsOfIndex(t, s[0].id);
    var j :| 0 <= j < |t| && t[j].id == s[0].id;
    IdsOfHas(t, 0);
    IdsOfIndex(s, t[0].id);
    var i :| 0 <= i < |s| && s[i].id == t[0].id;
    assert s[0] == t[j] && s[i] == t[0];
    if j > 0 {
      assert false;
    }
  }

  /** The sort `{createdAt: -1, _id: -1}` has one result: two sequences that
      list the same stored records in that sort are equal. */
  lemma {:induction false} OrderUnique(records: map<Id, Record>, s: seq<Entry>, t: seq<Entry>)
    requires IdsOf(s) == IdsOf(t)
    requires NewestFirst(records, s) && NewestFirst(records, t)
    requires TieBroken(s) && TieBroken(t)
    ensures s == t
    decreases |s|
  {
    if s != [] {
      OrderFirst(records, s, t);
      OrderTail(records, s);
      OrderTail(records, t);
      OrderUnique(records, s[1..], t[1..]);
      assert s == [s[0]] + s[1..] && t == [t[0]] + t[1..];
    } else if t != [] {
      OrderFirst(records, t, s);
    }
  }

  /** Records created at different times are sorted the same way by
      `{createdAt: -1}` and by `{createdAt: -1, _id: -1}`. */
  lemma {:induction false} DistinctTimesTieBroken(records: map<Id, Record>, s: seq<Entry>)
    requires NewestFirst(records, s) && DistinctTimes(records, IdsOf(s))
    ensures TieBroken(s)
  {
    forall i, j | 0 <= i < j < |s|
      ensures Before(s[i], s[j])
    {
      IdsOfHas(s, i);
      IdsOfHas(s, j);
    }
  }

  /** `Math.ceil(n / d)` for positive `d`. */
  function CeilDiv(n: nat, d: nat): (q: nat)
    requires d >= 1
    ensures q * d >= n
    ensures q > 0 ==> (q - 1) * d < n
  {
    (n + d - 1) / d
  }

  /** `.skip(skip).limit(limit)` on a result sequence: the entries of `s` from
      position `skip` on, at most `limit` of them. */
  function Window(s: seq<Entry>, skip: nat, limit: nat): (w: seq<Entry>)
    ensures |w| <= limit
    ensures skip >= |s| ==> w == []
    ensures forall i :: 0 <= i < |w| ==> skip + i < |s| && w[i] == s[skip + i]
    ensures skip + limit <= |s| ==> |w| == limit
  {
    var lo := if skip < |s| then skip else |s|;
    var hi := if skip + limit < |s| then skip + limit else |s|;
    s[lo..hi]
  }

  /** The response of a list request. */
  datatype ListReply = ListReply(items: seq<Entry>, totalPages: nat, currentPage: nat, totalCount: nat)

  /** The sizes `.skip((page - 1) * limit).limit(limit)` gives. */
  lemma {:induction false} WindowSize(s: seq<Entry>, page: nat, limit: nat)
    requires page >= 1 && limit >= 1
    ensures var skip, w := (page - 1) * limit, Window(s, (page - 1) * limit, limit);
      && (skip >= |s| ==> w == [])
      && (skip < |s| ==> |w| == if page * limit <= |s| then limit else |s| - skip)
  {
    assert page * limit == (page - 1) * limit + limit;
  }

  /** Every entry of a window is an entry of the sequence it is cut from. */
  lemma {:induction false} WindowFrom(s: seq<Entry>, skip: nat, limit: nat)
    ensures forall e :: e in Window(s, skip, limit) ==> e in s
  {
  }

  /** A window of a sequence that is newest first is newest first. */
  lemma {:induction false} WindowNewestFirst(records: map<Id, Record>, s: seq<Entry>, skip: nat, limit: nat)
    requires NewestFirst(records, s)
    ensures NewestFirst(records, Window(s, skip, limit))
  {
    var lo := if skip < |s| then skip else |s|;
    var w := Window(s, skip, limit);
    assert forall i :: 0 <= i < |w| ==> w[i] == s[lo + i];
  }

  /** Every record of a result of the sorted query matches the filter. */
  lemma {:induction false} SortedMatch(records: map<Id, Record>, filter: map<Field, string>, s: seq<Entry>)
    requires SortedMatches(records, filter, s)
    ensures forall e :: e in s ==> Matches(e.record, filter)
  {
    forall e | e in s ensures Matches(e.record, filter) {
      var i :| 0 <= i < |s| && s[i] == e;
      IdsOfHas(s, i);
    }
  }

  /** Page `page`, `limit` per page, cut from the result `order` of the
      sorted query, with the count `countDocuments(filter)` returns. */
  function Page(records: map<Id, Record>, filter: map<Field, string>, order: seq<Entry>, page: nat, limit: nat): (r: ListReply)
    requires page >= 1 && limit >= 1
    requires SortedMatches(records, filter, order)
    ensures r.currentPage == page
    ensures r.totalCount == |MatchingIds(records, filter)|
    ensures r.totalPages == CeilDiv(r.totalCount, limit)
    ensures r.totalPages * limit >= r.totalCount
    ensures r.totalPages > 0 ==> (r.totalPages - 1) * limit < r.totalCount
    ensures |r.items| <= limit
    ensures (page - 1) * limit >= r.totalCount ==> r.items == []
    ensures (page - 1) * limit < r.totalCount ==>
      |r.items| == if page * limit <= r.totalCount then limit else r.totalCount - (page - 1) * limit
    ensures NewestFirst(records, r.items)
    ensures forall e :: e in r.items ==> Matches(e.record, filter)
    ensures r.items == Window(order, (page - 1) * limit, limit)
  {
    var items := Window(order, (page - 1) * limit, limit);
    WindowSize(order, page, limit);
    WindowNewestFirst(records, order, (page - 1) * limit, limit);
    WindowFrom(order, (page - 1) * limit, limit);
    SortedMatch(records, filter, order);
    ListReply(items, CeilDiv(|order|, limit), page, |order|)
  }

  /** The entries of pages 1 to `k`, `limit` per page, page `i` cut from
      `orders[i - 1]`, the result of the query that served it, as `Page`
      cuts it. */
  function PagesUpTo(orders: seq<seq<Entry>>, limit: nat, k: nat): seq<Entry>
    requires k <= |orders|
  {
    if k == 0 then [] else PagesUpTo(orders, limit, k - 1) + Window(orders[k - 1], (k - 1) * limit, limit)
  }

  /** The prefix up to `skip` followed by the window at `skip` is the prefix
      up to `skip + limit`. */
  lemma {:induction false} WindowExtends(s: seq<Entry>, skip: nat, limit: nat)
    ensures s[..Min(skip, |s|)] + Window(s, skip, limit) == s[..Min(skip + limit, |s|)]
  {
  }

  function Min(a: nat, b: nat): nat
  {
    if a <= b then a else b
  }

  /** The windows at offsets 0, `limit`, ..., `(k-1) * limit`, one after
      the other. */
  function Windows(s: seq<Entry>, limit: nat, k: nat): seq<Entry>
  {
    if k == 0 then [] else Windows(s, limit, k - 1) + Window(s, (k - 1) * limit, limit)
  }

  /** The first `k` windows are the first `k * limit` entries. */
  lemma {:induction false} WindowsPrefix(s: seq<Entry>, limit: nat, k: nat)
    ensures Windows(s, limit, k) == s[..Min(k * limit, |s|)]
  {
    if k > 0 {
      var skip: nat := (k - 1) * limit;
      var next: nat := k * limit;
      assert next == skip + limit by {
        NextOffset(k, limit);
      }
      calc {
        Windows(s, limit, k);
        Windows(s, limit, k - 1) + Window(s, skip, limit);
        { WindowsPrefix(s, limit, k - 1); }
        s[..Min(skip, |s|)] + Window(s, skip, limit);
        { WindowExtends(s, skip, limit); }
        s[..Min(next, |s|)];
      }
    }
  }

  lemma {:induction false} NextOffset(k: nat, limit: nat)
    requires k >= 1
    ensures k * limit == (k - 1) * limit + limit
  {
  }

  /** Pages 1 to `k` served by queries that all returned `s` are the first
      `k` windows of `s`. */
  lemma {:induction false} PagesAreWindows(orders: seq<seq<Entry>>, limit: nat, k: nat, s: seq<Entry>)
    requires k <= |orders|
    requires forall i :: 0 <= i < k ==> orders[i] == s
    ensures PagesUpTo(orders, limit, k) == Windows(s, limit, k)
  {
    if k > 0 {
      PagesAreWindows(orders, limit, k - 1, s);
    }
  }

  /** Pages 1 to `totalPages` served by queries that all returned `s` are
      `s` itself. */
  lemma {:induction false} SameOrderPages(orders: seq<seq<Entry>>, limit: nat, s: seq<Entry>)
    requires limit >= 1
    requires forall i :: 0 <= i < |orders| ==> orders[i] == s
    requires |orders| == CeilDiv(|s|, limit)
    ensures PagesUpTo(orders, limit, |orders|) == s
  {
    PagesAreWindows(orders, limit, |orders|, s);
    WindowsPrefix(s, limit, |orders|);
    assert Min(|orders| * limit, |s|) == |s|;
    assert s[..|s|] == s;
  }

  /** When no two matching records were created at the same time, every
      query returns the same sequence, and reading pages 1 to `totalPages`
      yields each matching record exactly once, newest first. Every page is
      read from the same `records`: the collection is taken to be unchanged
      between the page requests. */
  lemma {:induction false} PagesCover(records: map<Id, Record>, filter: map<Field, string>, orders: seq<seq<Entry>>, limit: nat)
    requires limit >= 1
    requires forall i :: 0 <= i < |orders| ==> SortedMatches(records, filter, orders[i])
    requires |orders| == CeilDiv(|MatchingIds(records, filter)|, limit)
    requires DistinctTimes(records, MatchingIds(records, filter))
    ensures var all := PagesUpTo(orders, limit, |orders|);
      SortedMatches(records, filter, all) && all == Ordered(records, MatchingIds(records, filter))
  {
    var s := Ordered(records, MatchingIds(records, filter));
    forall i | 0 <= i < |orders|
      ensures orders[i] == s
    {
      DistinctTimesTieBroken(records, orders[i]);
      OrderUnique(records, orders[i], s);
    }
    SameOrderPages(orders, limit, s);
  }

  /** With the tie-breaking sort `{createdAt: -1, _id: -1}` every query
      returns the same sequence, and reading pages 1 to `totalPages` yields
      each matching record exactly once, whatever their creation times. As
      in `PagesCover`, the collection is unchanged between page requests. */
  lemma {:induction false} TieBrokenPagesCover(records: map<Id, Record>, filter: map<Field, string>, orders: seq<seq<Entry>>, limit: nat)
    requires limit >= 1
    requires forall i :: 0 <= i < |orders| ==> SortedMatches(records, filter, orders[i]) && TieBroken(orders[i])
    requires |orders| == CeilDiv(|MatchingIds(records, filter)|, limit)
    ensures var all := PagesUpTo(orders, limit, |orders|);
      SortedMatches(records, filter, all) && all == Ordered(records, MatchingIds(records, filter))
  {
    var s := Ordered(records, MatchingIds(records, filter));
    forall i | 0 <= i < |orders|
      ensures orders[i] == s
    {
      OrderUnique(records, orders[i], s);
    }
    SameOrderPages(orders, limit, s);
  }

  /** Two records created at the same time, listed in either order, are a
      result of the sorted query with no filter. */
  lemma {:induction false} TiedSorted(r: Record, s: seq<Entry>)
    requires s == [Entry(1, r), Entry(2, r)] || s == [Entry(2, r), Entry(1, r)]
    ensures SortedMatches(map[1 := r, 2 := r], map[], s)
  {
    var records := map[1 := r, 2 := r];
    var none: map<Field, string> := map[];
    assert MatchingIds(records, none) == {1, 2};
    assert IdsOf(s[1..]) == {s[1].id} by {
      assert s[1..][1..] == [];
    }
  }

  /** `sort({createdAt: -1})` alone lets two queries order records created at
      the same time differently: with two such records and `limit = 1`,
      page 1 and page 2 can both list the first record, and the second is
      never listed. */
  lemma {:induction false} TiedPagesRepeat(r: Record)
    ensures var records := map[1 := r, 2 := r];
      var first, second := Entry(1, r), Entry(2, r);
      && SortedMatches(records, map[], [first, second])
      && SortedMatches(records, map[], [second, first])
      && Page(records, map[], [first, second], 1, 1).totalPages == 2
      && Page(records, map[], [first, second], 1, 1).items == [first]
      && Page(records, map[], [second, first], 2, 1).items == [first]
      && PagesUpTo([[first, second], [second, first]], 1, 2) == [first, first]
  {
    var records := map[1 := r, 2 := r];
    var first, second := Entry(1, r), Entry(2, r);
    var none: map<Field, string> := map[];
    TiedSorted(r, [first, second]);
    TiedSorted(r, [second, first]);
    var orders := [[first, second], [second, first]];
    assert Window(orders[0], 0, 1) == [first];
    assert Window(orders[1], 1, 1) == [first];
    assert PagesUpTo(orders, 1, 1) == [first];
  }

  /** The page a query asks for, 1 when it names none. */
  function PageOf(q: Query): (page: nat)
    ensures NumericQuery(q) ==> page >= 1
  {
    if q.page.Some? then q.page.value else DefaultPage
  }

  /** The page size a query asks for, 10 when it names none. */
  function LimitOf(q: Query): (limit: nat)
    ensures NumericQuery(q) ==> limit >= 1
  {
    if q.limit.Some? then q.limit.value else DefaultLimit
  }

  /** `countDocuments(filter)` counts exactly the stored records that satisfy
      the query. */
  lemma {:induction false} MatchingSatisfies(kind: Kind, records: map<Id, Record>, q: Query)
    ensures MatchingIds(records, QueryFilter(kind, q)) == set id | id in records && Satisfies(kind, q, records[id])
  {
    forall id | id in records
      ensures Matches(records[id], QueryFilter(kind, q)) <==> Satisfies(kind, q, records[id])
    {
      FilterMeaning(kind, q, records[id]);
    }
  }

  /** Every entry that matches the filter of a query satisfies the query. */
  lemma {:induction false} ItemsSatisfy(kind: Kind, q: Query, items: seq<Entry>)
    requires forall e :: e in items ==> Matches(e.record, QueryFilter(kind, q))
    ensures forall e :: e in items ==> Satisfies(kind, q, e.record)
  {
    forall e | e in items
      ensures Satisfies(kind, q, e.record)
    {
      FilterMeaning(kind, q, e.record);
    }
  }

  /** The list handler: the filter from the query, then the requested page of
      the result `order` the sorted query returned, the number of records
      that satisfy the query and the number of pages they fill. */
  function List(kind: Kind, records: map<Id, Record>, q: Query, order: seq<Entry>): (r: ListReply)
    requires NumericQuery(q)
    requires SortedMatches(records, QueryFilter(kind, q), order)
    ensures r.currentPage == PageOf(q) && (q.page.None? ==> r.currentPage == 1)
    ensures |r.items| <= LimitOf(q) && (q.limit.None? ==> |r.items| <= 10)
    ensures r.items == Window(order, (PageOf(q) - 1) * LimitOf(q), LimitOf(q))
    ensures r.totalCount == |set id | id in records && Satisfies(kind, q, records[id])|
    ensures r.totalPages == CeilDiv(r.totalCount, LimitOf(q))
    ensures NewestFirst(records, r.items)
    ensures forall e :: e in r.items ==> Satisfies(kind, q, e.record)
  {
    var r := Page(records, QueryFilter(kind, q), order, PageOf(q), LimitOf(q));
    MatchingSatisfies(kind, records, q);
    ItemsSatisfy(kind, q, r.items);
    r
  }
}
