/** The single-thesis page of the Metawahl client: it turns the route's
    election and thesis numbers into the API's thesis ID `WOM-ooo-tt`, looks
    the election up in the client's cache, and orders its two requests. */
module ThesisView {
  import opened Common

  /** A cached election (`occasion`): only its number and title matter here. */
  datatype Occasion = Occasion(id: int, title: string)

  /** The thesis payload the API returns; its content is not inspected. */
  datatype ThesisData = ThesisData(id: string, text: string)

  // ---------------------------------------------------------------------
  // Thesis ID and endpoints

  /** `"WOM-" + occasionNum.toString().padStart(3, '0') + '-' +
      thesisNum.toString().padStart(2, '0')`; `None` is NaN. */
  function ThesisId(occasionNum: Option<int>, thesisNum: Option<int>): string {
    "WOM-" + PadStart(NumberToString(occasionNum), 3, '0')
      + "-" + PadStart(NumberToString(thesisNum), 2, '0')
  }

  /** The thesis endpoint below the API root. */
  function ThesisEndpoint(occasionNum: Option<int>, thesisNum: Option<int>): string {
    "/thesis/" + ThesisId(occasionNum, thesisNum)
  }

  /** The election endpoint below the API root. */
  function OccasionEndpoint(occasionNum: Option<int>): (path: string)
    ensures occasionNum.Some? && occasionNum.value >= 0 ==>
      path == "/occasions/" + NatToString(occasionNum.value)
  {
    "/occasions/" + NumberToString(occasionNum)
  }

  /** A number zero-padded to width `w` is made of digits only. */
  lemma PaddedDigits(n: nat, w: nat)
    ensures AllDigits(PadStart(NatToString(n), w, '0'))
    ensures |PadStart(NatToString(n), w, '0')| >= w
  {
    var s := NatToString(n);
    var r := PadStart(s, w, '0');
    var k := |r| - |s|;
    forall i | 0 <= i < |r| ensures IsDigit(r[i]) {
      if i >= k {
        assert r[i] == r[k..][i - k];
      }
    }
  }

  /** For the numbers Metawahl uses (at most 999 elections, at most 99
      theses each) the ID has exactly the 10 characters of the server's
      thesis ID column. */
  lemma ThesisIdLength(occasionNum: nat, thesisNum: nat)
    requires occasionNum < 1000 && thesisNum < 100
    ensures |ThesisId(Some(occasionNum), Some(thesisNum))| == 10
  {
    NatToStringWidth(occasionNum, 3, 1000);
    NatToStringWidth(thesisNum, 2, 100);
  }

  /** Padding never truncates: the ID has three `-`-separated segments, the
      second and third parse back to the two numbers, whatever their size. */
  lemma {:induction false} ThesisIdRoundTrip(occasionNum: nat, thesisNum: nat)
    ensures |Split(ThesisId(Some(occasionNum), Some(thesisNum)), '-')| == 3
    ensures Split(ThesisId(Some(occasionNum), Some(thesisNum)), '-')[0] == "WOM"
    ensures ParseInt(Split(ThesisId(Some(occasionNum), Some(thesisNum)), '-')[1]) == Some(occasionNum)
    ensures ParseInt(Split(ThesisId(Some(occasionNum), Some(thesisNum)), '-')[2]) == Some(thesisNum)
  {
    var a := PadStart(NatToString(occasionNum), 3, '0');
    var b := PadStart(NatToString(thesisNum), 2, '0');
    PaddedNoDash(occasionNum, 3);
    PaddedNoDash(thesisNum, 2);
    IdSegments(a, b);
    assert ThesisId(Some(occasionNum), Some(thesisNum)) == "WOM-" + a + "-" + b;
    ParsePaddedNat(occasionNum, 3, []);
    ParsePaddedNat(thesisNum, 2, []);
    assert a + [] == a;
    assert b + [] == b;
  }

  lemma PaddedNoDash(n: nat, w: nat)
    ensures '-' !in PadStart(NatToString(n), w, '0')
  {
    var a := PadStart(NatToString(n), w, '0');
    PaddedDigits(n, w);
    forall i | 0 <= i < |a| ensures a[i] != '-' { assert IsDigit(a[i]); }
  }

  /** Two dash-free segments after the `WOM` prefix split apart again. */
  lemma IdSegments(a: string, b: string)
    requires '-' !in a && '-' !in b
    ensures Split("WOM-" + a + "-" + b, '-') == ["WOM", a, b]
  {
    assert '-' !in "WOM";
    assert "WOM-" + a + "-" + b == "WOM" + ['-'] + (a + ['-'] + b);
    SplitPrefix("WOM", a + ['-'] + b, '-');
    SplitPrefix(a, b, '-');
    SplitOfPlain(b, '-');
  }

  // ---------------------------------------------------------------------
  // The election cache

  /** What `getCachedOccasion` can yield: `null` when the cache has no entry
      for the territory, `undefined` when it has one but no election with the
      requested number, or the cached election. */
  datatype CachedOccasion = Null | Undefined | Present(occasion: Occasion) {
    /** `x == null` in JavaScript: true of both `null` and `undefined`. */
    predicate IsNullish() {
      !Present?
    }
  }

  /** Index of the first election numbered `num` (`num == None`, NaN, matches
      nothing since NaN equals no number). */
  function FirstWithId(occs: seq<Occasion>, num: Option<int>): (i: nat)
    ensures i <= |occs|
    ensures forall j :: 0 <= j < i ==> !(num.Some? && occs[j].id == num.value)
    ensures i < |occs| ==> num.Some? && occs[i].id == num.value
  {
    if occs == [] then 0
    else if num.Some? && occs[0].id == num.value then 0
    else 1 + FirstWithId(occs[1..], num)
  }

  /** `getCachedOccasion`: the cache maps territories to their elections. */
  function GetCachedOccasion(cache: map<string, seq<Occasion>>, territory: string,
                             occasionNum: Option<int>): (r: CachedOccasion)
    ensures r.Null? <==> territory !in cache
    ensures r.Present? ==>
      occasionNum.Some? && r.occasion.id == occasionNum.value && r.occasion in cache[territory]
  {
    if territory !in cache then Null
    else
      var occs := cache[territory];
      var i := FirstWithId(occs, occasionNum);
      if i < |occs| then Present(occs[i]) else Undefined
  }

  /** The lookup finds the first cached election with the requested number,
      and reports `undefined` exactly when there is none. */
  lemma CachedOccasionIsFirst(cache: map<string, seq<Occasion>>, territory: string,
                              occasionNum: Option<int>)
    requires territory in cache
    ensures var r := GetCachedOccasion(cache, territory, occasionNum);
      var occs := cache[territory];
      && (r.Undefined? <==> forall j :: 0 <= j < |occs| ==>
            !(occasionNum.Some? && occs[j].id == occasionNum.value))
      && (r.Present? ==> exists i :: (0 <= i < |occs| && occs[i] == r.occasion
            && forall j :: 0 <= j < i ==> occs[j].id != occasionNum.value))
  {
    var occs := cache[territory];
    var i := FirstWithId(occs, occasionNum);
    if i < |occs| {
      assert occs[i] == GetCachedOccasion(cache, territory, occasionNum).occasion;
    }
  }

  // ---------------------------------------------------------------------
  // The page

  /** A request the page sends to the API, by the numbers it carries. */
  datatype Request =
    | OccasionRequest(occasionNum: Option<int>)
    | ThesisRequest(occasionNum: Option<int>, thesisNum: Option<int>)
  {
    /** The path below the API root. */
    function Path(): string {
      match this
      case OccasionRequest(o) => OccasionEndpoint(o)
      case ThesisRequest(o, t) => ThesisEndpoint(o, t)
    }
  }

  /** The thesis request names the thesis by an ID whose numbers parse back
      to the ones requested. */
  lemma ThesisPathCarriesId(occasionNum: nat, thesisNum: nat)
    ensures var p := ThesisRequest(Some(occasionNum), Some(thesisNum)).Path();
      && |p| > 8 && p[..8] == "/thesis/"
      && |Split(p[8..], '-')| == 3
      && ParseInt(Split(p[8..], '-')[1]) == Some(occasionNum)
      && ParseInt(Split(p[8..], '-')[2]) == Some(thesisNum)
  {
    var id := ThesisId(Some(occasionNum), Some(thesisNum));
    var p := ThesisRequest(Some(occasionNum), Some(thesisNum)).Path();
    assert p == "/thesis/" + id;
    assert p[..8] == "/thesis/" && p[8..] == id;
    ThesisIdRoundTrip(occasionNum, thesisNum);
  }

  /** The election request and the thesis request never share a path. */
  lemma RequestPathsDiffer(a: Option<int>, b: Option<int>, c: Option<int>)
    ensures OccasionRequest(a).Path() != ThesisRequest(b, c).Path()
  {
    assert OccasionRequest(a).Path()[1] == 'o';
    assert ThesisRequest(b, c).Path()[1] == 't';
  }

  class ThesisPage {
    /** Route parameters and the cache passed in as props. */
    const territory: string
    const occasionNum: Option<int>
    const thesisNum: Option<int>
    const occasions: map<string, seq<Occasion>>

    var isLoading: bool
    var occasion: CachedOccasion
    var thesis: Option<ThesisData>
    /** Requests sent so far, in order. */
    var requests: seq<Request>
    /** Whether an election request carries the thesis load as its callback. */
    var thesisAfterOccasion: bool

    /** The request `loadThesis` sends. */
    function ThesisLoad(): Request {
      ThesisRequest(occasionNum, thesisNum)
    }

    /** The request `loadOccasion` sends. */
    function OccasionLoad(): Request {
      OccasionRequest(occasionNum)
    }

    /** The route parameters are parsed as base-10 integers and the
        election is taken from the cache if it is there. */
    constructor (territory: string, occasionParam: string, thesisParam: string,
                 occasions: map<string, seq<Occasion>>)
      ensures this.territory == territory && this.occasions == occasions
      ensures occasionNum == ParseInt(occasionParam) && thesisNum == ParseInt(thesisParam)
      ensures isLoading && thesis.None? && requests == [] && !thesisAfterOccasion
      ensures occasion == GetCachedOccasion(occasions, territory, occasionNum)
    {
      this.territory := territory;
      this.occasions := occasions;
      occasionNum := ParseInt(occasionParam);
      thesisNum := ParseInt(thesisParam);
      isLoading := true;
      occasion := GetCachedOccasion(occasions, territory, ParseInt(occasionParam));
      thesis := None;
      requests := [];
      thesisAfterOccasion := false;
    }

    /** `componentDidMount`: without a cached election, the election is
        requested first and the thesis after it; otherwise only the thesis. */
    method Mount()
      modifies this`requests, this`thesisAfterOccasion
      ensures occasion.IsNullish() ==>
        requests == old(requests) + [OccasionLoad()]
        && thesisAfterOccasion
      ensures !occasion.IsNullish() ==>
        requests == old(requests) + [ThesisLoad()]
        && thesisAfterOccasion == old(thesisAfterOccasion)
    {
      if occasion.IsNullish() {
        requests := requests + [OccasionLoad()];
        thesisAfterOccasion := true;
      } else {
        requests := requests + [ThesisLoad()];
      }
    }

    /** The election request succeeded: store it, then run the callback. */
    method OccasionLoaded(data: Occasion)
      modifies this`occasion, this`requests
      ensures occasion == Present(data)
      ensures old(thesisAfterOccasion) ==>
        requests == old(requests) + [ThesisLoad()]
      ensures !old(thesisAfterOccasion) ==> requests == old(requests)
    {
      occasion := Present(data);
      if thesisAfterOccasion {
        requests := requests + [ThesisLoad()];
      }
    }

    /** The election request failed: fall back to the cache; the callback,
        and with it the thesis request, is dropped. */
    method OccasionFailed()
      modifies this`occasion
      ensures occasion == GetCachedOccasion(occasions, territory, occasionNum)
    {
      occasion := GetCachedOccasion(occasions, territory, occasionNum);
    }

    method ThesisLoaded(data: ThesisData)
      modifies this`isLoading, this`thesis
      ensures !isLoading && thesis == Some(data)
    {
      isLoading := false;
      thesis := Some(data);
    }

    method ThesisFailed()
      modifies this`isLoading
      ensures !isLoading
    {
      isLoading := false;
    }
  }

  // ---------------------------------------------------------------------
  // Request orderings

  /** Opening the page: construction followed by `componentDidMount`. */
  method Open(territory: string, occasionParam: string, thesisParam: string,
              occasions: map<string, seq<Occasion>>)
    returns (page: ThesisPage)
    ensures fresh(page)
    ensures page.occasionNum == ParseInt(occasionParam) && page.thesisNum == ParseInt(thesisParam)
    ensures page.territory == territory && page.occasions == occasions
    ensures page.occasion == GetCachedOccasion(occasions, territory, ParseInt(occasionParam))
    ensures page.isLoading && page.thesis.None?
    ensures page.occasion.IsNullish() ==>
      page.requests == [page.OccasionLoad()] && page.thesisAfterOccasion
    ensures !page.occasion.IsNullish() ==>
      page.requests == [page.ThesisLoad()] && !page.thesisAfterOccasion
  {
    page := new ThesisPage(territory, occasionParam, thesisParam, occasions);
    page.Mount();
  }

  /** A cache miss followed by a successful election request: the thesis is
      requested after the election, and the page stops loading once the
      thesis arrives. */
  method LoadAfterCacheMiss(territory: string, occasionParam: string, thesisParam: string,
                            occasions: map<string, seq<Occasion>>, occ: Occasion,
                            data: ThesisData)
    returns (page: ThesisPage)
    requires GetCachedOccasion(occasions, territory, ParseInt(occasionParam)).IsNullish()
    ensures page.occasionNum == ParseInt(occasionParam) && page.thesisNum == ParseInt(thesisParam)
    ensures page.requests == [page.OccasionLoad(), page.ThesisLoad()]
    ensures !page.isLoading && page.thesis == Some(data) && page.occasion == Present(occ)
  {
    page := Open(territory, occasionParam, thesisParam, occasions);
    page.OccasionLoaded(occ);
    assert page.requests == [page.OccasionLoad()] + [page.ThesisLoad()];
    page.ThesisLoaded(data);
  }

  /** A cache hit: only the thesis is requested. */
  method LoadAfterCacheHit(territory: string, occasionParam: string, thesisParam: string,
                           occasions: map<string, seq<Occasion>>)
    returns (page: ThesisPage)
    requires GetCachedOccasion(occasions, territory, ParseInt(occasionParam)).Present?
    ensures page.occasionNum == ParseInt(occasionParam) && page.thesisNum == ParseInt(thesisParam)
    ensures page.requests == [page.ThesisLoad()]
    ensures page.isLoading
  {
    page := Open(territory, occasionParam, thesisParam, occasions);
  }

  /** A cache miss followed by a failed election request: the fallback finds
      nothing again, the thesis is never requested, and the page keeps
      loading. */
  method StuckAfterOccasionFailure(territory: string, occasionParam: string,
                                   thesisParam: string, occasions: map<string, seq<Occasion>>)
    returns (page: ThesisPage)
    requires GetCachedOccasion(occasions, territory, ParseInt(occasionParam)).IsNullish()
    ensures page.occasionNum == ParseInt(occasionParam)
    ensures page.requests == [page.OccasionLoad()]
    ensures page.isLoading && page.thesis.None? && page.occasion.IsNullish()
  {
    page := Open(territory, occasionParam, thesisParam, occasions);
    page.OccasionFailed();
  }
}
