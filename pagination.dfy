/**
 * The query side of the monitor (`statusHandler` in main.go): defaulting of
 * the `page` and `limit` parameters, the snapshot of the status map sorted by
 * URL, and the page of that snapshot returned in the response envelope.
 */
module Pagination {
  import opened Wrappers
  import opened Strings

  /** One element of the response's `data`: a website and its status. */
  datatype StatusEntry = StatusEntry(url: string, status: string)

  /** The response envelope: `totalPages`, `currentPage` and `data`. */
  datatype PaginatedStatusResponse = PaginatedStatusResponse(totalPages: int, currentPage: int, data: seq<StatusEntry>)

  const DefaultPage: int := 1
  const DefaultLimit: int := 10

  function Min(a: int, b: int): int
  {
    if a <= b then a else b
  }

  // ---------------------------------------------------------------------------
  // Parameters

  /**
   * A query parameter after defaulting. `parsed` is what `strconv.Atoi` gave:
   * None for a missing or non-numeric parameter. Anything missing, non-numeric
   * or below 1 becomes `default`.
   */
  function ParamOrDefault(parsed: Option<int>, default: int): (v: int)
    requires default >= 1
    ensures v >= 1
    ensures parsed.Some? && parsed.value >= 1 ==> v == parsed.value
    ensures parsed.None? || parsed.value < 1 ==> v == default
  {
    match parsed
    case None => default
    case Some(n) => if n < 1 then default else n
  }

  // ---------------------------------------------------------------------------
  // Page arithmetic

  /** The number of pages of `limit` items that hold `totalItems` items: the ceiling of the quotient. */
  function TotalPages(totalItems: nat, limit: int): (pages: nat)
    requires limit >= 1
    // enough pages for every item ...
    ensures pages * limit >= totalItems
    // ... and no page more than needed
    ensures pages > 0 ==> (pages - 1) * limit < totalItems
    ensures pages == 0 <==> totalItems == 0
  {
    var n := totalItems + limit - 1;
    assert n == (n / limit) * limit + n % limit;
    n / limit
  }

  /**
   * The bounds `start` and `end` of page `page`: `(page-1)*limit` and
   * `page*limit`, each clamped to `totalItems`, so that slicing is always in bounds.
   */
  function Window(page: int, limit: int, totalItems: nat): (w: (nat, nat))
    requires page >= 1 && limit >= 1
    ensures w.0 <= w.1 <= totalItems
    ensures w.1 - w.0 <= limit
    ensures w.0 == Min((page - 1) * limit, totalItems)
    ensures w.1 == Min(page * limit, totalItems)
    ensures w.1 == Min(w.0 + limit, totalItems)
  {
    assert page * limit == (page - 1) * limit + limit;
    var start := (page - 1) * limit;
    var end := start + limit;
    var start := if start > totalItems then totalItems else start;
    var end := if end > totalItems then totalItems else end;
    (start, end)
  }

  /** The number of items before page `page`: (page-1)*limit, never negative. */
  function Offset(page: int, limit: int): nat
    requires page >= 1 && limit >= 1
  {
    MulMonotone(0, page - 1, limit);
    (page - 1) * limit
  }

  /**
   * The entries of page `page` at `limit` per page: the items from
   * (page-1)*limit up to page*limit, both clamped to the snapshot.
   */
  function PageOf(statuses: seq<StatusEntry>, page: int, limit: int): (data: seq<StatusEntry>)
    requires page >= 1 && limit >= 1
    ensures var start := Min(Offset(page, limit), |statuses|);
      && data == statuses[start..Min(start + limit, |statuses|)]
      && |data| == Min(limit, |statuses| - start)
  {
    var start := Min(Offset(page, limit), |statuses|);
    statuses[start..Min(start + limit, |statuses|)]
  }

  /**
   * The response to a query with parse results `pageArg` and `limitArg`,
   * over the sorted snapshot `statuses`.
   */
  function Respond(statuses: seq<StatusEntry>, pageArg: Option<int>, limitArg: Option<int>): (resp: PaginatedStatusResponse)
    ensures var page := ParamOrDefault(pageArg, DefaultPage);
      var limit := ParamOrDefault(limitArg, DefaultLimit);
      && resp.currentPage == page
      && resp.totalPages == TotalPages(|statuses|, limit)
      && resp.data == PageOf(statuses, page, limit)
      && |resp.data| <= limit
      // a page past the last is empty, yet its number is still echoed
      && (|resp.data| == 0 <==> resp.currentPage > resp.totalPages)
  {
    var page := ParamOrDefault(pageArg, DefaultPage);
    var limit := ParamOrDefault(limitArg, DefaultLimit);
    var totalPages := TotalPages(|statuses|, limit);
    EmptyPastLastPage(statuses, page, limit);
    PaginatedStatusResponse(totalPages, page, PageOf(statuses, page, limit))
  }

  /** Pages past the last are empty, every other page is not. */
  lemma EmptyPastLastPage(statuses: seq<StatusEntry>, page: int, limit: int)
    requires page >= 1 && limit >= 1
    ensures |PageOf(statuses, page, limit)| == 0 <==> page > TotalPages(|statuses|, limit)
  {
    PastLastPage(page, limit, |statuses|);
  }

  /** A page starts past the last item exactly when its number exceeds the page count. */
  lemma PastLastPage(page: int, limit: int, totalItems: nat)
    requires page >= 1 && limit >= 1
    ensures Min(Offset(page, limit), totalItems) == totalItems <==> page > TotalPages(totalItems, limit)
  {
    var pages := TotalPages(totalItems, limit);
    if page > pages {
      MulMonotone(pages, page - 1, limit);
    } else {
      MulMonotone(page - 1, pages - 1, limit);
    }
  }

  lemma MulMonotone(a: int, b: int, c: nat)
    requires a <= b
    ensures a * c <= b * c
  {
  }

  /** A missing, non-numeric or non-positive `page` answers like `page=1`; likewise `limit` and `limit=10`. */
  lemma DefaultingIsUniform(statuses: seq<StatusEntry>, pageArg: Option<int>, limitArg: Option<int>)
    ensures pageArg.None? || pageArg.value < 1 ==>
      Respond(statuses, pageArg, limitArg) == Respond(statuses, Some(1), limitArg)
    ensures limitArg.None? || limitArg.value < 1 ==>
      Respond(statuses, pageArg, limitArg) == Respond(statuses, pageArg, Some(10))
  {
  }

  /** The concatenation of pages 1..k at a fixed limit. */
  function PagesUpTo(statuses: seq<StatusEntry>, limit: int, k: nat): seq<StatusEntry>
    requires limit >= 1
  {
    if k == 0 then [] else PagesUpTo(statuses, limit, k - 1) + PageOf(statuses, k, limit)
  }

  /** Pages 1..k together are the first k*limit items of the snapshot (or all of it). */
  lemma {:induction false} PagesArePrefix(statuses: seq<StatusEntry>, limit: int, k: nat)
    requires limit >= 1
    ensures PagesUpTo(statuses, limit, k) == statuses[..Min(k * limit, |statuses|)]
  {
    if k > 0 {
      PagesArePrefix(statuses, limit, k - 1);
      var before := Min((k - 1) * limit, |statuses|);
      var after := Min(k * limit, |statuses|);
      assert k * limit == (k - 1) * limit + limit;
      assert PageOf(statuses, k, limit) == statuses[before..after];
      assert statuses[..after] == statuses[..before] + statuses[before..after];
    }
  }

  /**
   * Reading pages 1..totalPages at a fixed limit gives back the snapshot,
   * every entry once, in order, with nothing left out.
   */
  lemma PagesCoverSnapshot(statuses: seq<StatusEntry>, limit: int)
    requires limit >= 1
    ensures PagesUpTo(statuses, limit, TotalPages(|statuses|, limit)) == statuses
  {
    PagesArePrefix(statuses, limit, TotalPages(|statuses|, limit));
  }

  /** Three items at limit 2: two pages, of 2 and 1 items; page 3 is empty and still echoed. */
  lemma ThreeItemsTwoPerPage(statuses: seq<StatusEntry>)
    requires |statuses| == 3
    ensures Respond(statuses, Some(1), Some(2)) == PaginatedStatusResponse(2, 1, statuses[..2])
    ensures Respond(statuses, Some(2), Some(2)) == PaginatedStatusResponse(2, 2, statuses[2..])
    ensures Respond(statuses, Some(3), Some(2)) == PaginatedStatusResponse(2, 3, [])
  {
    ThreeItemsPages(statuses);
    RespondWithParams(statuses, 1, 2);
    RespondWithParams(statuses, 2, 2);
    RespondWithParams(statuses, 3, 2);
    assert TotalPages(3, 2) == 2;
  }

  /** The response to explicit, valid `page` and `limit` parameters. */
  lemma RespondWithParams(statuses: seq<StatusEntry>, page: int, limit: int)
    requires page >= 1 && limit >= 1
    ensures Respond(statuses, Some(page), Some(limit))
         == PaginatedStatusResponse(TotalPages(|statuses|, limit), page, PageOf(statuses, page, limit))
  {
  }

  /** The three pages of a three-item snapshot at limit 2. */
  lemma ThreeItemsPages(statuses: seq<StatusEntry>)
    requires |statuses| == 3
    ensures PageOf(statuses, 1, 2) == statuses[..2]
    ensures PageOf(statuses, 2, 2) == statuses[2..]
    ensures PageOf(statuses, 3, 2) == []
  {
    assert Offset(1, 2) == 0 && Offset(2, 2) == 2 && Offset(3, 2) == 4;
  }

  // ---------------------------------------------------------------------------
  // The snapshot

  predicate DistinctUrls(s: seq<StatusEntry>)
  {
    forall i, j :: 0 <= i < j < |s| ==> s[i].url != s[j].url
  }

  /** `s` holds each entry of `m` exactly once and nothing else, in some order. */
  predicate IsSnapshot(m: map<string, string>, s: seq<StatusEntry>)
  {
    && |s| == |m|
    && DistinctUrls(s)
    && (forall e :: e in s ==> e.url in m && m[e.url] == e.status)
    && (forall url :: url in m ==> StatusEntry(url, m[url]) in s)
  }

  /** No entry has a larger URL than one after it. */
  predicate Ordered(s: seq<StatusEntry>)
  {
    forall i, j :: 0 <= i < j < |s| ==> !Less(s[j].url, s[i].url)
  }

  /** Strictly ascending by URL. */
  predicate SortedByUrl(s: seq<StatusEntry>)
  {
    forall i, j :: 0 <= i < j < |s| ==> Less(s[i].url, s[j].url)
  }

  /**
   * The `for url, status := range statusMap` loop: appends every entry of the
   * map once, in whatever order the iteration picks.
   */
  method CollectEntries(m: map<string, string>) returns (statuses: seq<StatusEntry>)
    ensures IsSnapshot(m, statuses)
  {
    statuses := [];
    var rest := m.Keys;
    while rest != {}
      invariant rest <= m.Keys
      invariant forall e :: e in statuses ==> e.url in m && e.url !in rest && m[e.url] == e.status
      invariant forall url :: url in m && url !in rest ==> StatusEntry(url, m[url]) in statuses
      invariant DistinctUrls(statuses)
      invariant |statuses| + |rest| == |m|
    {
      var url :| url in rest;
      statuses := statuses + [StatusEntry(url, m[url])];
      rest := rest - {url};
    }
  }

  /** `sort.Slice(statuses, less by URL)`: sorts the entries in place. */
  method SortByUrl(a: array<StatusEntry>)
    modifies a
    ensures Ordered(a[..])
    ensures multiset(a[..]) == multiset(old(a[..]))
    ensures DistinctUrls(old(a[..])) ==> DistinctUrls(a[..])
  {
    var i := 0;
    while i < a.Length
      invariant 0 <= i <= a.Length
      invariant OrderedUpTo(a[..], i)
      invariant multiset(a[..]) == multiset(old(a[..]))
      invariant DistinctUrls(old(a[..])) ==> DistinctUrls(a[..])
    {
      InsertIntoPrefix(a, i);
      i := i + 1;
    }
  }

  /** The first `n` entries are ordered. */
  predicate OrderedUpTo(s: seq<StatusEntry>, n: int)
    requires n <= |s|
  {
    forall p, q :: 0 <= p < q < n ==> !Less(s[q].url, s[p].url)
  }

  /** One pass of insertion: moves `a[i]` left into the ordered prefix `a[..i]`. */
  method InsertIntoPrefix(a: array<StatusEntry>, i: int)
    requires 0 <= i < a.Length
    requires OrderedUpTo(a[..], i)
    modifies a
    ensures OrderedUpTo(a[..], i + 1)
    ensures a[i + 1..] == old(a[i + 1..])
    ensures multiset(a[..]) == multiset(old(a[..]))
    ensures DistinctUrls(old(a[..])) ==> DistinctUrls(a[..])
  {
    var j := i;
    while j > 0 && Less(a[j].url, a[j - 1].url)
      invariant 0 <= j <= i
      invariant forall p, q :: 0 <= p < q <= i && p != j && q != j ==> !Less(a[q].url, a[p].url)
      invariant forall q :: j < q <= i ==> Less(a[j].url, a[q].url)
      invariant a[i + 1..] == old(a[i + 1..])
      invariant multiset(a[..]) == multiset(old(a[..]))
      invariant DistinctUrls(old(a[..])) ==> DistinctUrls(a[..])
    {
      SwapAdjacent(a, j);
      j := j - 1;
    }
    forall p, q | 0 <= p < q <= i
      ensures !Less(a[q].url, a[p].url)
    {
      if q == j && p < j - 1 {
        NotLessTransitive(a[p].url, a[j - 1].url, a[j].url);
      } else if p == j {
        LessAsymmetric(a[j].url, a[q].url);
      }
    }
  }

  /** Exchanges `a[j-1]` and `a[j]`. */
  method SwapAdjacent(a: array<StatusEntry>, j: int)
    requires 0 < j < a.Length
    modifies a
    ensures a[..] == old(a[..])[j - 1 := old(a[j])][j := old(a[j - 1])]
    ensures multiset(a[..]) == multiset(old(a[..]))
    ensures DistinctUrls(old(a[..])) ==> DistinctUrls(a[..])
  {
    ghost var before := a[..];
    a[j - 1], a[j] := a[j], a[j - 1];
    assert a[..] == before[j - 1 := before[j]][j := before[j - 1]];
    if DistinctUrls(before) {
      forall p, q | 0 <= p < q < a.Length
        ensures a[..][p].url != a[..][q].url
      {
        var p' := if p == j - 1 then j else if p == j then j - 1 else p;
        var q' := if q == j - 1 then j else if q == j then j - 1 else q;
        assert a[..][p] == before[p'] && a[..][q] == before[q'] && p' != q';
      }
    }
  }

  /** An ordered sequence whose URLs are distinct is strictly ascending. */
  lemma OrderedDistinctIsSorted(s: seq<StatusEntry>)
    requires Ordered(s) && DistinctUrls(s)
    ensures SortedByUrl(s)
  {
    forall i, j | 0 <= i < j < |s|
      ensures Less(s[i].url, s[j].url)
    {
      LessTotal(s[i].url, s[j].url);
    }
  }

  /** Reordering a snapshot keeps it a snapshot, as long as the URLs stay distinct. */
  lemma PermutedSnapshot(m: map<string, string>, s: seq<StatusEntry>, t: seq<StatusEntry>)
    requires IsSnapshot(m, s)
    requires multiset(t) == multiset(s) && DistinctUrls(t)
    ensures IsSnapshot(m, t)
  {
    assert |t| == |multiset(t)| == |multiset(s)| == |s|;
    forall e | e in t
      ensures e in s
    {
      assert e in multiset(t);
    }
    forall url | url in m
      ensures StatusEntry(url, m[url]) in t
    {
      assert StatusEntry(url, m[url]) in multiset(s);
    }
  }

  /**
   * The snapshot the handler paginates: the entries of the map sorted
   * strictly ascending by URL.
   */
  method SortedSnapshot(m: map<string, string>) returns (statuses: seq<StatusEntry>)
    ensures IsSnapshot(m, statuses) && SortedByUrl(statuses)
  {
    var collected := CollectEntries(m);
    var a := new StatusEntry[|collected|](i requires 0 <= i < |collected| => collected[i]);
    assert a[..] == collected;
    SortByUrl(a);
    statuses := a[..];
    PermutedSnapshot(m, collected, statuses);
    OrderedDistinctIsSorted(statuses);
  }

  /** Two sequences sorted by URL with the same elements are the same sequence. */
  lemma {:induction false} SortedSameElements(s: seq<StatusEntry>, t: seq<StatusEntry>)
    requires SortedByUrl(s) && SortedByUrl(t)
    requires forall e :: e in s <==> e in t
    ensures s == t
    decreases |s|
  {
    if s != [] {
      assert s[0] in s;
    }
    if t != [] {
      assert t[0] in t;
    }
    if s != [] {
      assert t[0] in s && s[0] in t;
      var i :| 0 <= i < |s| && s[i] == t[0];
      var j :| 0 <= j < |t| && t[j] == s[0];
      if i > 0 {
        if j > 0 {
          LessAsymmetric(s[0].url, s[i].url);
        } else {
          LessIrreflexive(s[0].url);
        }
      }
      assert s[0] == t[0];
      forall e
        ensures e in s[1..] <==> e in t[1..]
      {
        if e in s[1..] {
          TailMember(s, e);
          TailMemberBack(t, e);
        }
        if e in t[1..] {
          TailMember(t, e);
          TailMemberBack(s, e);
        }
      }
      SortedSameElements(s[1..], t[1..]);
    }
  }

  /** In a sequence sorted by URL, an element of the tail is not the head. */
  lemma TailMember(s: seq<StatusEntry>, e: StatusEntry)
    requires SortedByUrl(s) && |s| > 0 && e in s[1..]
    ensures e in s && e != s[0]
  {
    var k :| 1 <= k < |s| && s[k] == e;
    if e == s[0] {
      LessIrreflexive(s[0].url);
    }
  }

  lemma TailMemberBack(s: seq<StatusEntry>, e: StatusEntry)
    requires e in s && e != s[0]
    ensures e in s[1..]
  {
    var k :| 0 <= k < |s| && s[k] == e;
    assert s[1..][k - 1] == e;
  }

  /**
   * The sorted snapshot of a map is unique: however the map iteration ordered
   * the entries, the handler paginates the same sequence.
   */
  lemma SortedSnapshotUnique(m: map<string, string>, s: seq<StatusEntry>, t: seq<StatusEntry>)
    requires IsSnapshot(m, s) && SortedByUrl(s)
    requires IsSnapshot(m, t) && SortedByUrl(t)
    ensures s == t
  {
    forall e
      ensures e in s <==> e in t
    {
      if e in s {
        assert e == StatusEntry(e.url, m[e.url]);
      }
      if e in t {
        assert e == StatusEntry(e.url, m[e.url]);
      }
    }
    SortedSameElements(s, t);
  }

  /**
   * Three websites, all up, asked for page 1 at limit 2: two pages, the first
   * holding a.com and b.com, whatever order the map iteration produced.
   */
  lemma ThreeWebsitesFirstPage(s: seq<StatusEntry>)
    requires var m := map["a.com" := "up", "b.com" := "up", "c.com" := "up"];
      IsSnapshot(m, s) && SortedByUrl(s)
    ensures Respond(s, Some(1), Some(2))
      == PaginatedStatusResponse(2, 1, [StatusEntry("a.com", "up"), StatusEntry("b.com", "up")])
  {
    var m := map["a.com" := "up", "b.com" := "up", "c.com" := "up"];
    var sorted := [StatusEntry("a.com", "up"), StatusEntry("b.com", "up"), StatusEntry("c.com", "up")];
    ThreeWebsitesSorted();
    SortedSnapshotUnique(m, s, sorted);
    assert s[..2] == sorted[..2];
  }

  lemma ThreeWebsitesSorted()
    ensures var m := map["a.com" := "up", "b.com" := "up", "c.com" := "up"];
      var sorted := [StatusEntry("a.com", "up"), StatusEntry("b.com", "up"), StatusEntry("c.com", "up")];
      IsSnapshot(m, sorted) && SortedByUrl(sorted)
  {
    var m := map["a.com" := "up", "b.com" := "up", "c.com" := "up"];
    var sorted := [StatusEntry("a.com", "up"), StatusEntry("b.com", "up"), StatusEntry("c.com", "up")];
    assert Less("a.com", "b.com") && Less("b.com", "c.com") && Less("a.com", "c.com");
    assert m.Keys == {"a.com", "b.com", "c.com"};
  }
}
