/** The page of one tag (client/src/views/tag/index.jsx): the theses
    carrying the tag, narrowed by an optional second tag, newest election
    first, one page at a time; the menu of related tags to narrow by; and
    the page's state across route changes and loads. */
module TagView {
  import opened Common
  import Seqs
  import Models

  /** A thesis as the list needs it: its id, its election and the titles
      of its tags. */
  datatype ThesisItem = ThesisItem(id: string, occasionId: int, tagTitles: seq<string>)

  datatype OccasionRef = OccasionRef(id: int, title: string)

  // -----------------------------------------------------------------------
  // The list

  /** A filter is in force when `tagFilter` is set and non-empty. */
  predicate FilterActive(tagFilter: Option<string>) {
    tagFilter.Some? && |tagFilter.value| > 0
  }

  /** The filter of `render`: with the filter in force, theses carrying the
      filter tag, or with `invert` those that do not; otherwise all. */
  predicate KeepThesis(t: ThesisItem, tagFilter: Option<string>, invert: bool) {
    if FilterActive(tagFilter) then
      (if !invert then tagFilter.value in t.tagTitles else tagFilter.value !in t.tagTitles)
    else true
  }

  function Keeper(tagFilter: Option<string>, invert: bool): ThesisItem -> bool {
    (t: ThesisItem) => KeepThesis(t, tagFilter, invert)
  }

  function OccasionKey(t: ThesisItem): int { t.occasionId }

  /** `theses.filter(...).sort((t1, t2) => t2.occasion_id - t1.occasion_id)`;
      `None` while loading, when `render` has no list. */
  function VisibleTheses(loading: bool, theses: seq<ThesisItem>, tagFilter: Option<string>, invert: bool)
    : (r: Option<seq<ThesisItem>>)
    ensures r.None? <==> loading
    ensures r.Some? ==> multiset(r.value) == multiset(Seqs.Filter(theses, Keeper(tagFilter, invert)))
    ensures r.Some? ==> forall i, j :: 0 <= i < j < |r.value| ==> r.value[i].occasionId >= r.value[j].occasionId
  {
    if loading then None
    else Some(Seqs.SortDesc(Seqs.Filter(theses, Keeper(tagFilter, invert)), OccasionKey))
  }

  /** Exactly the theses that pass the filter are listed. */
  lemma VisibleExactly(theses: seq<ThesisItem>, tagFilter: Option<string>, invert: bool, t: ThesisItem)
    ensures t in VisibleTheses(false, theses, tagFilter, invert).value <==> t in theses && KeepThesis(t, tagFilter, invert)
  {
    var kept := Seqs.Filter(theses, Keeper(tagFilter, invert));
    var shown := VisibleTheses(false, theses, tagFilter, invert).value;
    assert t in shown <==> t in multiset(kept);
    if t in kept {
      var k :| 0 <= k < |kept| && kept[k] == t;
      assert Keeper(tagFilter, invert)(kept[k]);
      assert t in multiset(theses);
    }
    if t in theses && KeepThesis(t, tagFilter, invert) {
      var k :| 0 <= k < |theses| && theses[k] == t;
      assert Keeper(tagFilter, invert)(theses[k]);
    }
  }

  /** Without a filter in force every thesis is shown. */
  lemma NoFilterKeepsAll(theses: seq<ThesisItem>, tagFilter: Option<string>, invert: bool)
    requires !FilterActive(tagFilter)
    ensures multiset(VisibleTheses(false, theses, tagFilter, invert).value) == multiset(theses)
  {
    Seqs.FilterAll(theses, Keeper(tagFilter, invert));
  }

  /** A filter and its inversion split the theses between them. */
  lemma InvertComplements(theses: seq<ThesisItem>, tagFilter: Option<string>)
    requires FilterActive(tagFilter)
    ensures |VisibleTheses(false, theses, tagFilter, false).value|
          + |VisibleTheses(false, theses, tagFilter, true).value| == |theses|
  {
    InvertSplit(theses, tagFilter);
  }

  lemma {:induction false} InvertSplit(theses: seq<ThesisItem>, tagFilter: Option<string>)
    requires FilterActive(tagFilter)
    ensures |Seqs.Filter(theses, Keeper(tagFilter, false))| + |Seqs.Filter(theses, Keeper(tagFilter, true))|
         == |theses|
  {
    if theses != [] {
      InvertSplit(theses[1..], tagFilter);
    }
  }

  /** Theses of the same election keep the order the server sent them in. */
  lemma SameElectionKeepsOrder(theses: seq<ThesisItem>, tagFilter: Option<string>, invert: bool, occasion: int)
    ensures Seqs.WithKey(VisibleTheses(false, theses, tagFilter, invert).value, OccasionKey, occasion)
         == Seqs.WithKey(Seqs.Filter(theses, Keeper(tagFilter, invert)), OccasionKey, occasion)
  {
    Seqs.SortDescStable(Seqs.Filter(theses, Keeper(tagFilter, invert)), OccasionKey, occasion);
  }

  // -----------------------------------------------------------------------
  // Pagination

  function StartPos(page: int, perPage: nat): int {
    (page - 1) * perPage
  }

  function EndPos(page: int, perPage: nat, len: nat): int {
    var e := StartPos(page, perPage) + perPage;
    if e < len then e else len
  }

  /** `theses.slice(startPos, endPos)` for the page `page`. */
  function PageSlice<T>(list: seq<T>, page: int, perPage: nat): seq<T> {
    JsSlice(list, StartPos(page, perPage), EndPos(page, perPage, |list|))
  }

  /** `Math.ceil(theses.length / THESES_PER_PAGE)`. */
  function TotalPages(len: nat, perPage: nat): (t: nat)
    requires perPage > 0
  {
    (len + perPage - 1) / perPage
  }

  /** The number of pages is the least that holds every thesis. */
  lemma TotalPagesIsCeiling(len: nat, perPage: nat)
    requires perPage > 0
    ensures TotalPages(len, perPage) * perPage >= len
    ensures TotalPages(len, perPage) == 0 || (TotalPages(len, perPage) - 1) * perPage < len
  {
    var t := TotalPages(len, perPage);
    var q := len + perPage - 1;
    assert q == t * perPage + q % perPage;
  }

  /** A page from 1 on shows the theses from `(page - 1) * perPage` on, at
      most `perPage` of them, in list order. */
  lemma PageContents<T>(list: seq<T>, page: int, perPage: nat)
    requires page >= 1
    ensures var p := PageSlice(list, page, perPage);
      && |p| <= perPage
      && (forall i :: 0 <= i < |p| ==> StartPos(page, perPage) + i < |list| && p[i] == list[StartPos(page, perPage) + i])
      && (StartPos(page, perPage) < |list| ==>
            |p| == Min(perPage, |list| - StartPos(page, perPage)))
  {
    var s := StartPos(page, perPage);
    assert s >= 0 by {
      assert (page - 1) * perPage >= 0;
    }
  }

  /** Whatever the page number, even zero or negative, a page never holds
      more than `perPage` theses. */
  lemma PageAtMostPerPage<T>(list: seq<T>, page: int, perPage: nat)
    ensures |PageSlice(list, page, perPage)| <= perPage
  {
    if page >= 1 {
      PageContents(list, page, perPage);
    } else {
      var s := StartPos(page, perPage);
      assert s + perPage == page * perPage <= 0;
      assert EndPos(page, perPage, |list|) == s + perPage;
      JsSliceLength(list, s, s + perPage);
    }
  }

  /** Every thesis is on exactly one page, and that page is within
      `totalPages`. */
  lemma ExactlyOnePage(len: nat, perPage: nat, i: nat)
    requires perPage > 0 && i < len
    ensures var p := i / perPage + 1;
      && 1 <= p <= TotalPages(len, perPage)
      && StartPos(p, perPage) <= i < EndPos(p, perPage, len)
    ensures forall q :: q >= 1 && q != i / perPage + 1 ==>
      !(StartPos(q, perPage) <= i < EndPos(q, perPage, len))
  {
    var p := i / perPage + 1;
    assert StartPos(p, perPage) == (i / perPage) * perPage;
    assert i == (i / perPage) * perPage + i % perPage;
    TotalPagesIsCeiling(len, perPage);
    MulCancel(p - 1, TotalPages(len, perPage), perPage);
    forall q | q >= 1 && q != p
      ensures !(StartPos(q, perPage) <= i < EndPos(q, perPage, len))
    {
      if q < p {
        MulMonotone(q, p - 1, perPage);
        assert StartPos(q, perPage) + perPage == q * perPage;
      } else {
        MulMonotone(p, q - 1, perPage);
      }
    }
  }

  lemma MulMonotone(a: int, b: int, c: nat)
    requires a <= b
    ensures a * c <= b * c
  {
  }

  lemma MulCancel(a: int, b: int, c: nat)
    requires a * c < b * c
    ensures a < b
  {
    if a >= b {
      MulMonotone(b, a, c);
    }
  }

  /** A negative page number from the address (`parseInt("-1")` is truthy)
      makes the window count from the end of the list: with one thesis per
      page, page -1 shows the second-to-last thesis. */
  lemma NegativePageCountsFromEnd<T>(a: T, b: T, c: T)
    ensures PageSlice([a, b, c], -1, 1) == [b]
  {
    assert StartPos(-1, 1) == -2 && EndPos(-1, 1, 3) == -1;
    assert [a, b, c][1..2] == [b];
  }

  // -----------------------------------------------------------------------
  // Route parameters and the tag cache

  /** `parseInt(param, 10) || 1`: NaN and 0 fall back to page 1. */
  function ParsePage(param: Option<string>): (page: int)
    ensures page != 0
    ensures param.Some? && ParseInt(param.value).Some? && ParseInt(param.value).value != 0
            ==> page == ParseInt(param.value).value
    ensures param.None? || ParseInt(param.value).None? || ParseInt(param.value) == Some(0) ==> page == 1
  {
    match param
    case None => 1
    case Some(s) =>
      match ParseInt(s)
      case None => 1
      case Some(v) => if v == 0 then 1 else v
  }

  /** The page number the pagination writes into the address is read back. */
  lemma PageRoundTrip(page: nat)
    requires page >= 1
    ensures ParsePage(Some(NatToString(page))) == page
  {
    ParsePaddedNat(page, 0, []);
    assert PadStart(NatToString(page), 0, '0') + [] == NatToString(page);
  }

  /** `getCachedTag(slugP)`: the first cached tag with the slug, where a
      missing or empty `slugP` falls back to the slug of the current props. */
  function GetCachedTag(tags: seq<Models.TagDict>, slugP: Option<string>, propsSlug: string)
    : (r: Option<Models.TagDict>)
    ensures var slug := if IsFalsyString(slugP) then propsSlug else slugP.value;
      && (r.Some? ==> r.value in tags && r.value.slug == slug)
      && (r.None? <==> forall i :: 0 <= i < |tags| ==> tags[i].slug != slug)
  {
    var slug := if IsFalsyString(slugP) then propsSlug else slugP.value;
    match FirstWithSlug(tags, slug)
    case None => None
    case Some(i) => Some(tags[i])
  }

  /** `tags.filter(t => t.slug === slug).shift()` as an index. */
  function FirstWithSlug(tags: seq<Models.TagDict>, slug: string): (r: Option<nat>)
    ensures r.Some? ==> r.value < |tags| && tags[r.value].slug == slug
    ensures r.Some? ==> forall j :: 0 <= j < r.value ==> tags[j].slug != slug
    ensures r.None? <==> forall i :: 0 <= i < |tags| ==> tags[i].slug != slug
  {
    if tags == [] then None
    else if tags[0].slug == slug then Some(0)
    else
      match FirstWithSlug(tags[1..], slug)
      case None => None
      case Some(i) => Some(i + 1)
  }

  // -----------------------------------------------------------------------
  // The filter menu

  datatype FilterOption = FilterOption(key: string, text: string, value: string)

  function CountKey(e: Models.RelatedEntry): int { e.count }

  /** `(tag && tag.related_tags) || {}` as the list of its entries. */
  function RelatedOf(tag: Option<Models.TagDict>): seq<Models.RelatedEntry> {
    if tag.Some? && tag.value.relatedTags.Some? then tag.value.relatedTags.value else []
  }

  function FewerThan(n: nat): Models.RelatedEntry -> bool {
    (e: Models.RelatedEntry) => e.count < n
  }

  function OptionFor(e: Models.RelatedEntry): FilterOption {
    FilterOption(e.title, e.tag.title + " (" + NumberToString(Some(e.count)) + ")", e.title)
  }

  /** The related entries `filterOptions` keeps, in its order. */
  function KeptRelated(tag: Option<Models.TagDict>, thesisCount: nat): seq<Models.RelatedEntry> {
    Seqs.Filter(Seqs.SortDesc(RelatedOf(tag), CountKey), FewerThan(thesisCount))
  }

  /** `filterOptions`: the related tags by count, largest first, leaving
      out those carried by all `thesisCount` theses of the tag (they would
      filter nothing), labelled with title and count. */
  function FilterOptions(tag: Option<Models.TagDict>, thesisCount: nat): (opts: seq<FilterOption>)
    ensures |opts| == |KeptRelated(tag, thesisCount)| <= |RelatedOf(tag)|
    ensures forall i :: 0 <= i < |opts| ==>
      opts[i] == OptionFor(KeptRelated(tag, thesisCount)[i]) && opts[i].key == opts[i].value
  {
    var kept := KeptRelated(tag, thesisCount);
    seq(|kept|, i requires 0 <= i < |kept| => OptionFor(kept[i]))
  }

  /** An option is offered for a related tag exactly when fewer than all
      theses carry it. */
  lemma FilterOptionsExact(tag: Option<Models.TagDict>, thesisCount: nat, e: Models.RelatedEntry)
    ensures e in KeptRelated(tag, thesisCount) <==> e in RelatedOf(tag) && e.count < thesisCount
  {
    var sorted := Seqs.SortDesc(RelatedOf(tag), CountKey);
    var kept := KeptRelated(tag, thesisCount);
    if e in kept {
      var k :| 0 <= k < |kept| && kept[k] == e;
      assert FewerThan(thesisCount)(kept[k]);
      assert e in multiset(sorted);
    }
    if e in RelatedOf(tag) && e.count < thesisCount {
      assert e in multiset(sorted);
      var k :| 0 <= k < |sorted| && sorted[k] == e;
      assert FewerThan(thesisCount)(sorted[k]);
    }
  }

  /** The options come largest count first. */
  lemma FilterOptionsOrder(tag: Option<Models.TagDict>, thesisCount: nat)
    ensures var kept := KeptRelated(tag, thesisCount);
      forall i, j :: 0 <= i < j < |kept| ==> kept[i].count >= kept[j].count
  {
    var sorted := Seqs.SortDesc(RelatedOf(tag), CountKey);
    Seqs.FilterKeepsSorted(sorted, FewerThan(thesisCount), CountKey);
  }

  // -----------------------------------------------------------------------
  // The page's state

  class TagViewPage {
    var routeSlug: string
    var loading: bool
    var page: int
    var slug: string
    var tag: Option<Models.TagDict>
    var occasions: map<int, OccasionRef>
    var theses: seq<ThesisItem>
    var tagFilter: Option<string>
    var invertFilter: bool

    /** The initial state, from the route and the cached tags. */
    constructor (routeSlug: string, pageParam: Option<string>, cachedTags: seq<Models.TagDict>)
      ensures this.routeSlug == routeSlug && slug == routeSlug
      ensures loading && page == ParsePage(pageParam)
      ensures tag == GetCachedTag(cachedTags, None, routeSlug)
      ensures occasions == map[] && theses == [] && tagFilter.None? && !invertFilter
    {
      this.routeSlug := routeSlug;
      loading := true;
      page := ParsePage(pageParam);
      slug := routeSlug;
      tag := GetCachedTag(cachedTags, None, routeSlug);
      occasions := map[];
      theses := [];
      tagFilter := None;
      invertFilter := false;
    }

    /** `componentWillReceiveProps`: a new slug resets the list and asks
        for the tag (the result says so); the same slug with another page
        only moves the page. The cache lookup still sees the old props. */
    method ReceiveProps(nextSlug: string, nextPageParam: Option<string>, cachedTags: seq<Models.TagDict>)
      returns (loadRequested: bool)
      modifies this
      ensures loadRequested <==> nextSlug != old(slug)
      ensures routeSlug == nextSlug
      ensures nextSlug != old(slug) ==>
        && loading && page == ParsePage(nextPageParam) && slug == nextSlug
        && tag == GetCachedTag(cachedTags, Some(nextSlug), old(routeSlug))
        && theses == [] && occasions == map[]
      ensures nextSlug == old(slug) ==>
        && page == ParsePage(nextPageParam)
        && loading == old(loading) && slug == old(slug) && tag == old(tag)
        && theses == old(theses) && occasions == old(occasions)
      ensures tagFilter == old(tagFilter) && invertFilter == old(invertFilter)
    {
      var nextPage := ParsePage(nextPageParam);
      loadRequested := false;
      if nextSlug != slug {
        loading := true;
        page := nextPage;
        tag := GetCachedTag(cachedTags, Some(nextSlug), routeSlug);
        slug := nextSlug;
        theses := [];
        occasions := map[];
        loadRequested := true;
      } else if nextPage != page {
        page := nextPage;
      }
      routeSlug := nextSlug;
    }

    /** The tag request answered. */
    method TagLoaded(data: Option<Models.TagDict>, loaded: seq<ThesisItem>, loadedOccasions: map<int, OccasionRef>)
      modifies this`tag, this`theses, this`occasions, this`loading
      ensures tag == data && theses == loaded && occasions == loadedOccasions && !loading
    {
      tag := data;
      theses := loaded;
      occasions := loadedOccasions;
      loading := false;
    }

    /** The tag request failed: an empty list, no longer loading. */
    method TagLoadFailed()
      modifies this`theses, this`occasions, this`loading
      ensures theses == [] && occasions == map[] && !loading
    {
      loading := false;
      theses := [];
      occasions := map[];
    }

    method SelectFilter(value: string)
      modifies this`tagFilter
      ensures tagFilter == Some(value)
    {
      tagFilter := Some(value);
    }

    /** With a filter in force the list swaps to exactly the loaded theses
        it hid; without one it stays as it was. */
    method InvertFilter()
      modifies this`invertFilter
      ensures invertFilter == !old(invertFilter)
      ensures !loading && FilterActive(tagFilter) ==> forall t :: t in theses ==>
        (t in VisibleTheses(loading, theses, tagFilter, invertFilter).value
         <==> t !in VisibleTheses(loading, theses, tagFilter, old(invertFilter)).value)
      ensures !FilterActive(tagFilter) ==>
        VisibleTheses(loading, theses, tagFilter, invertFilter)
        == VisibleTheses(loading, theses, tagFilter, old(invertFilter))
    {
      var before := invertFilter;
      invertFilter := !invertFilter;
      if !loading && FilterActive(tagFilter) {
        forall t | t in theses
          ensures t in VisibleTheses(false, theses, tagFilter, invertFilter).value
              <==> t !in VisibleTheses(false, theses, tagFilter, before).value
        {
          VisibleExactly(theses, tagFilter, invertFilter, t);
          VisibleExactly(theses, tagFilter, before, t);
        }
      }
      if !FilterActive(tagFilter) {
        Seqs.FilterAll(theses, Keeper(tagFilter, true));
        Seqs.FilterAll(theses, Keeper(tagFilter, false));
      }
    }

    /** Clearing the filter lists every loaded thesis again. */
    method ResetFilter()
      modifies this`tagFilter, this`invertFilter
      ensures tagFilter.None? && !invertFilter
      ensures !loading ==> multiset(VisibleTheses(loading, theses, tagFilter, invertFilter).value) == multiset(theses)
    {
      tagFilter := None;
      invertFilter := false;
      NoFilterKeepsAll(theses, tagFilter, invertFilter);
    }

    /** What `render` lists on the current page. */
    function Shown(perPage: nat): (r: Option<seq<ThesisItem>>)
      reads this
      ensures r.None? <==> loading
      ensures r.Some? ==> r.value == PageSlice(VisibleTheses(loading, theses, tagFilter, invertFilter).value, page, perPage)
      ensures r.Some? ==> |r.value| <= perPage
    {
      match VisibleTheses(loading, theses, tagFilter, invertFilter)
      case None => None
      case Some(list) =>
        PageAtMostPerPage(list, page, perPage);
        Some(PageSlice(list, page, perPage))
    }

    /** `filterOptions` of the current state: a related tag is offered
        exactly when fewer than all loaded theses carry it. */
    function Options(): (opts: seq<FilterOption>)
      reads this
      ensures |opts| == |KeptRelated(tag, |theses|)|
      ensures forall i :: 0 <= i < |opts| ==>
        opts[i] == OptionFor(KeptRelated(tag, |theses|)[i]) && KeptRelated(tag, |theses|)[i].count < |theses|
      ensures forall e :: e in RelatedOf(tag) && e.count < |theses| ==> OptionFor(e) in opts
    {
      var kept := KeptRelated(tag, |theses|);
      forall i | 0 <= i < |kept|
        ensures kept[i].count < |theses|
      {
        FilterOptionsExact(tag, |theses|, kept[i]);
      }
      forall e | e in RelatedOf(tag) && e.count < |theses|
        ensures OptionFor(e) in FilterOptions(tag, |theses|)
      {
        FilterOptionsExact(tag, |theses|, e);
        var k :| 0 <= k < |kept| && kept[k] == e;
        assert FilterOptions(tag, |theses|)[k] == OptionFor(e);
      }
      FilterOptions(tag, |theses|)
    }
  }
}
