/**
 `getGames` and the two requests it makes: ten listing pages, then one detail
 request per batch of twenty refs. The HTTP client and the HTML/XML parser are
 collaborators passed in as functions from URL to parsed content, `None` when
 the request or the parse fails.
 */
module Pipeline {
  import opened Wrappers
  import opened Text
  import opened Site
  import opened Listing
  import opened Batching
  import opened Records
  import opened IdPattern

  /** `got` + `JSDOM` + `querySelectorAll(".collection_objectname a")` on a listing page. */
  type ListingSource = string -> Option<seq<Anchor>>

  /** `got` + `JSDOM` + `querySelectorAll("boardgames > boardgame")` on a detail response. */
  type DetailSource = string -> Option<seq<GameElt>>

  const ListingPrefix: string := BggUrl + "/browse/boardgame/page/"

  /** The listing URL of `page`. */
  function ListingUrl(page: nat): string
  {
    ListingPrefix + DecimalString(page)
  }

  /** A listing URL is the fixed prefix followed by a decimal numeral whose value is the page number. */
  lemma ListingUrlPage(page: nat)
    ensures var url := ListingUrl(page);
            && |url| > |ListingPrefix| && url[..|ListingPrefix|] == ListingPrefix
            && AllDigits(url[|ListingPrefix|..]) && DecimalValue(url[|ListingPrefix|..]) == page
  {
    assert ListingUrl(page)[|ListingPrefix|..] == DecimalString(page);
  }

  /** `getTopGames(page)`: the refs of one listing page, or why it failed. */
  function GetTopGames(page: nat, listing: ListingSource): Result<seq<GameRef>, Error>
  {
    var url := ListingUrl(page);
    var anchors :- listing(url).ToResult(FetchFailed(url));
    TopGames(anchors)
  }

  /**
   A fetched page yields one ref per anchor, in page order: the anchor's text
   as name, the site-qualified `href` as link, and an id that the link itself
   yields again under the id pattern.
   */
  lemma PageRefs(page: nat, listing: ListingSource)
    requires GetTopGames(page, listing).Success?
    ensures listing(ListingUrl(page)).Some?
    ensures var anchors := listing(ListingUrl(page)).value;
            var refs := GetTopGames(page, listing).value;
            && |refs| == |anchors|
            && forall i :: 0 <= i < |refs| ==>
                 && anchors[i].href.Some?
                 && refs[i].name == anchors[i].text
                 && refs[i].link == BggUrl + anchors[i].href.value
                 && ExtractId(refs[i].link) == Some(refs[i].id)
  {
    var anchors := listing(ListingUrl(page)).value;
    var refs := GetTopGames(page, listing).value;
    forall i | 0 <= i < |refs|
      ensures anchors[i].href.Some?
      ensures refs[i].name == anchors[i].text
      ensures refs[i].link == BggUrl + anchors[i].href.value
      ensures ExtractId(refs[i].link) == Some(refs[i].id)
    {
      TopGamesRefs(anchors, i);
      assert ToRef(anchors[i]) == Success(refs[i]);
      LinkYieldsId(anchors[i]);
    }
  }

  /**
   A page fails exactly when its request fails or one of its anchors has no
   `href` or no id; the error names the URL, or the first such anchor.
   */
  lemma PageFailure(page: nat, listing: ListingSource)
    ensures var fetched := listing(ListingUrl(page));
            GetTopGames(page, listing).Failure? <==>
              fetched.None? || exists i :: 0 <= i < |fetched.value| && ToRef(fetched.value[i]).Failure?
    ensures listing(ListingUrl(page)).None? ==>
              GetTopGames(page, listing) == Failure(FetchFailed(ListingUrl(page)))
    ensures var fetched := listing(ListingUrl(page));
            fetched.Some? && GetTopGames(page, listing).Failure? ==>
              exists i :: && 0 <= i < |fetched.value|
                          && ToRef(fetched.value[i]) == Failure(GetTopGames(page, listing).error)
                          && forall j :: 0 <= j < i ==> ToRef(fetched.value[j]).Success?
  {
    var fetched := listing(ListingUrl(page));
    if fetched.Some? && GetTopGames(page, listing).Failure? {
      TopGamesFailure(fetched.value);
    }
  }

  /** `games.map(g => g.id)` */
  function Ids(games: seq<GameRef>): (ids: seq<string>)
    ensures |ids| == |games|
    ensures forall i :: 0 <= i < |games| ==> ids[i] == games[i].id
  {
    if |games| == 0 then [] else [games[0].id] + Ids(games[1..])
  }

  const BatchPrefix: string := BggUrl + "/xmlapi/boardgame/"
  const BatchSuffix: string := "?stats=1"

  /** The detail request for a batch: its ids, comma-joined, between a fixed prefix and suffix. */
  function BatchUrl(games: seq<GameRef>): string
  {
    BatchPrefix + Join(Ids(games), ',') + BatchSuffix
  }

  /** Reads the requested ids back out of a detail-request URL. */
  function IdsInBatchUrl(url: string): Option<seq<string>>
  {
    if |url| >= |BatchPrefix| + |BatchSuffix|
       && url[..|BatchPrefix|] == BatchPrefix
       && url[|url| - |BatchSuffix|..] == BatchSuffix
    then Some(Split(url[|BatchPrefix|..|url| - |BatchSuffix|], ','))
    else None
  }

  /** A digit string has no comma in it. */
  lemma DigitsHaveNoComma(s: string)
    requires AllDigits(s)
    ensures ',' !in s
  {
  }

  /**
   A batch of listed refs (whose ids are digit strings) is requested with
   exactly its ids, in batch order.
   */
  lemma BatchUrlCarriesIds(games: seq<GameRef>)
    requires |games| > 0
    requires forall i :: 0 <= i < |games| ==> AllDigits(games[i].id)
    ensures IdsInBatchUrl(BatchUrl(games)) == Some(Ids(games))
  {
    var ids := Ids(games);
    var middle := Join(ids, ',');
    var url := BatchUrl(games);
    forall i | 0 <= i < |ids| ensures ',' !in ids[i] {
      DigitsHaveNoComma(games[i].id);
    }
    SplitJoin(ids, ',');
    Between(BatchPrefix, middle, BatchSuffix);
  }

  /** The parts of a three-part concatenation can be cut out again. */
  lemma Between(p: string, m: string, s: string)
    ensures var w := p + m + s;
            && w[..|p|] == p
            && w[|w| - |s|..] == s
            && w[|p|..|w| - |s|] == m
  {
  }

  /** `fetchGameInfo(games)`: one record per game element of the detail response, or why it failed. */
  function FetchGameInfo(games: seq<GameRef>, details: DetailSource): (r: Result<seq<Record>, Error>)
    ensures r.Success? <==> details(BatchUrl(games)).Some?
    ensures r.Failure? ==> r.error == FetchFailed(BatchUrl(games))
    ensures r.Success? ==> r.value == ScrapeGameXml(details(BatchUrl(games)).value)
  {
    var url := BatchUrl(games);
    var elts :- details(url).ToResult(FetchFailed(url));
    Success(ScrapeGameXml(elts))
  }

  /**
   Every record of a batch has the exported columns, and its `id` is the
   `objectid` of the response element it came from, in response order.
   */
  lemma BatchRecords(games: seq<GameRef>, details: DetailSource)
    requires FetchGameInfo(games, details).Success?
    ensures var records := FetchGameInfo(games, details).value;
            var elts := details(BatchUrl(games)).value;
            && |records| == |elts|
            && (forall i :: 0 <= i < |records| ==> Keys(records[i]) == Columns)
            && (forall i :: 0 <= i < |records| ==> Get(records[i], "id") == GetAttribute(elts[i].attributes, "objectid"))
  {
    var elts := details(BatchUrl(games)).value;
    forall i | 0 <= i < |elts|
      ensures Keys(ScrapeGame(elts[i])) == Columns
      ensures Get(ScrapeGame(elts[i]), "id") == GetAttribute(elts[i].attributes, "objectid")
    {
      RecordColumns(elts[i]);
      IdAndLink(elts[i]);
    }
  }

  /** Number of listing pages `getGames` reads. */
  const PageCount: nat := 10

  /**
   The page loop of `getGames` from page `first` on: each page's refs
   appended in page order; the first page that fails aborts.
   */
  function ListedRefsFrom(first: nat, listing: ListingSource): Result<seq<GameRef>, Error>
    decreases PageCount + 1 - first
  {
    if first > PageCount then Success([])
    else
      var refs :- GetTopGames(first, listing);
      var rest :- ListedRefsFrom(first + 1, listing);
      Success(refs + rest)
  }

  /** All refs of pages 1 to `PageCount`. */
  function ListedRefs(listing: ListingSource): Result<seq<GameRef>, Error>
  {
    ListedRefsFrom(1, listing)
  }

  /**
   The batch loop of `getGames` from offset `i` on: the records of
   `games.slice(i, i + 20)`, then of the next slice, and so on; the first
   batch that fails aborts.
   */
  function EnrichFrom(games: seq<GameRef>, i: nat, details: DetailSource): Result<seq<Record>, Error>
    decreases |games| - i
  {
    if i >= |games| then Success([])
    else
      var infos :- FetchGameInfo(games[i..Min(i + StepSize, |games|)], details);
      var rest :- EnrichFrom(games, i + StepSize, details);
      Success(infos + rest)
  }

  function Enrich(games: seq<GameRef>, details: DetailSource): Result<seq<Record>, Error>
  {
    EnrichFrom(games, 0, details)
  }

  /** What `getGames` computes: any failure aborts the whole run. */
  function Run(listing: ListingSource, details: DetailSource): Result<seq<Record>, Error>
  {
    var games :- ListedRefs(listing);
    Enrich(games, details)
  }

  function GameInfoOf(details: DetailSource): seq<GameRef> -> Result<seq<Record>, Error>
  {
    games => FetchGameInfo(games, details)
  }

  /** The concatenation of the values of a successful result. */
  function Flat<T, E>(r: Result<seq<seq<T>>, E>): Result<seq<T>, E>
  {
    match r
    case Success(v) => Success(Flatten(v))
    case Failure(e) => Failure(e)
  }

  /**
   The batch loop fetches exactly the slices `Chunks` describes, one request
   each, in order, and concatenates their records.
   */
  lemma {:induction false} EnrichFromIsChunked(games: seq<GameRef>, i: nat, details: DetailSource)
    ensures EnrichFrom(games, i, details) == Flat(MapAll(ChunksFrom(games, StepSize, i), GameInfoOf(details)))
    decreases |games| - i
  {
    if i < |games| {
      var chunks := ChunksFrom(games, StepSize, i);
      assert chunks[0] == games[i..Min(i + StepSize, |games|)];
      assert chunks[1..] == ChunksFrom(games, StepSize, i + StepSize);
      EnrichFromIsChunked(games, i + StepSize, details);
      var m := MapAll(chunks[1..], GameInfoOf(details));
      if GameInfoOf(details)(chunks[0]).Success? && m.Success? {
        assert Flatten([GameInfoOf(details)(chunks[0]).value] + m.value)
               == GameInfoOf(details)(chunks[0]).value + Flatten(m.value);
      }
    }
  }

  lemma EnrichIsChunked(games: seq<GameRef>, details: DetailSource)
    ensures Enrich(games, details) == Flat(MapAll(Chunks(games, StepSize), GameInfoOf(details)))
  {
    EnrichFromIsChunked(games, 0, details);
  }

  /** One request per batch: the run succeeds exactly when every batch's detail request does. */
  lemma EnrichAllOrNothing(games: seq<GameRef>, details: DetailSource)
    ensures var batches := Chunks(games, StepSize);
            Enrich(games, details).Success? <==>
              forall k :: 0 <= k < |batches| ==> details(BatchUrl(batches[k])).Some?
  {
    EnrichIsChunked(games, details);
    var batches := Chunks(games, StepSize);
    assert forall k :: 0 <= k < |batches| ==> GameInfoOf(details)(batches[k]) == FetchGameInfo(batches[k], details);
  }

  /** A failed run reports the first batch, in order, whose request failed. */
  lemma EnrichFailure(games: seq<GameRef>, details: DetailSource)
    requires Enrich(games, details).Failure?
    ensures var batches := Chunks(games, StepSize);
            exists k :: && 0 <= k < |batches|
                        && Enrich(games, details).error == FetchFailed(BatchUrl(batches[k]))
                        && details(BatchUrl(batches[k])).None?
                        && forall j :: 0 <= j < k ==> details(BatchUrl(batches[j])).Some?
  {
    EnrichIsChunked(games, details);
    var batches := Chunks(games, StepSize);
    var m := MapAll(batches, GameInfoOf(details));
    MapAllFailure(batches, GameInfoOf(details));
    var k :| && 0 <= k < |batches|
             && GameInfoOf(details)(batches[k]) == Failure(m.error)
             && forall j :: 0 <= j < k ==> GameInfoOf(details)(batches[j]).Success?;
    assert forall j :: 0 <= j < k ==> GameInfoOf(details)(batches[j]) == FetchGameInfo(batches[j], details);
  }

  /**
   On success the records are the scraped responses of the batches,
   concatenated in batch order.
   */
  lemma EnrichRecords(games: seq<GameRef>, details: DetailSource)
    requires Enrich(games, details).Success?
    ensures var batches := Chunks(games, StepSize);
            exists infos: seq<seq<Record>> ::
              && |infos| == |batches|
              && (forall k :: 0 <= k < |batches| ==>
                    && details(BatchUrl(batches[k])).Some?
                    && infos[k] == ScrapeGameXml(details(BatchUrl(batches[k])).value))
              && Enrich(games, details).value == Flatten(infos)
  {
    EnrichIsChunked(games, details);
    var batches := Chunks(games, StepSize);
    var infos := MapAll(batches, GameInfoOf(details)).value;
    forall k | 0 <= k < |batches|
      ensures details(BatchUrl(batches[k])).Some?
      ensures infos[k] == ScrapeGameXml(details(BatchUrl(batches[k])).value)
    {
      assert GameInfoOf(details)(batches[k]) == Success(infos[k]);
    }
  }

  /** No refs, no batches: the detail source is never consulted and the result is empty. */
  lemma EnrichNothing(details: DetailSource)
    ensures Enrich([], details) == Success([])
  {
  }

  /**
   Pages `first` to `last` of some page source, each page's items appended in
   page order; the first page that fails aborts.
   */
  function ConcatFrom<T, E>(first: nat, last: nat, pages: nat -> Result<seq<T>, E>): Result<seq<T>, E>
    decreases last + 1 - first
  {
    if first > last then Success([])
    else
      var items :- pages(first);
      var rest :- ConcatFrom(first + 1, last, pages);
      Success(items + rest)
  }

  /** Concatenating pages succeeds exactly when every page in the range does. */
  lemma {:induction false} ConcatFromAllOrNothing<T, E>(first: nat, last: nat, pages: nat -> Result<seq<T>, E>)
    ensures ConcatFrom(first, last, pages).Success? <==> forall p :: first <= p <= last ==> pages(p).Success?
    decreases last + 1 - first
  {
    if first <= last {
      ConcatFromAllOrNothing(first + 1, last, pages);
      if !(forall p :: first <= p <= last ==> pages(p).Success?) && pages(first).Success? {
        var p :| first <= p <= last && !pages(p).Success?;
        assert first + 1 <= p;
      }
    }
  }

  /** A failed concatenation carries the error of the first failing page. */
  lemma {:induction false} ConcatFromFailure<T, E>(first: nat, last: nat, pages: nat -> Result<seq<T>, E>)
    requires ConcatFrom(first, last, pages).Failure?
    ensures exists p :: && first <= p <= last
                        && pages(p) == Failure(ConcatFrom(first, last, pages).error)
                        && forall q :: first <= q < p ==> pages(q).Success?
    decreases last + 1 - first
  {
    if pages(first).Success? {
      ConcatFromFailure(first + 1, last, pages);
      var p :| && first + 1 <= p <= last
               && pages(p) == Failure(ConcatFrom(first + 1, last, pages).error)
               && forall q :: first + 1 <= q < p ==> pages(q).Success?;
      assert forall q :: first <= q < p ==> pages(q).Success?;
    }
  }

  /** `getTopGames` as a page source. */
  function PagesOf(listing: ListingSource): nat -> Result<seq<GameRef>, Error>
  {
    (page: nat) => GetTopGames(page, listing)
  }

  /** The page loop is the concatenation of pages `first` to `PageCount`. */
  lemma {:induction false} ListedRefsFromIsConcat(listing: ListingSource, first: nat)
    ensures ListedRefsFrom(first, listing) == ConcatFrom(first, PageCount, PagesOf(listing))
    decreases PageCount + 1 - first
  {
    if first <= PageCount {
      assert PagesOf(listing)(first) == GetTopGames(first, listing);
      ListedRefsFromIsConcat(listing, first + 1);
    }
  }

  /** The page loop succeeds exactly when every page from `first` on succeeds. */
  lemma ListedRefsFromAllOrNothing(listing: ListingSource, first: nat)
    ensures ListedRefsFrom(first, listing).Success? <==>
              forall p :: first <= p <= PageCount ==> GetTopGames(p, listing).Success?
  {
    ListedRefsFromIsConcat(listing, first);
    ConcatFromAllOrNothing(first, PageCount, PagesOf(listing));
    assert forall p :: PagesOf(listing)(p) == GetTopGames(p, listing);
  }

  /** A failed page loop reports the error of the first page, in order, that failed. */
  lemma ListedRefsFromFailure(listing: ListingSource, first: nat)
    requires ListedRefsFrom(first, listing).Failure?
    ensures exists p :: && first <= p <= PageCount
                        && GetTopGames(p, listing) == Failure(ListedRefsFrom(first, listing).error)
                        && forall q :: first <= q < p ==> GetTopGames(q, listing).Success?
  {
    ListedRefsFromIsConcat(listing, first);
    ConcatFromFailure(first, PageCount, PagesOf(listing));
    assert forall p :: PagesOf(listing)(p) == GetTopGames(p, listing);
  }

  /** All ten pages are read: the listing succeeds exactly when each of pages 1 to 10 does. */
  lemma ListedRefsAllOrNothing(listing: ListingSource)
    ensures ListedRefs(listing).Success? <==>
              forall p :: 1 <= p <= PageCount ==> GetTopGames(p, listing).Success?
  {
    ListedRefsFromAllOrNothing(listing, 1);
  }

  /** A failed listing carries the error of the first failing page; every page before it succeeded. */
  lemma ListedRefsFailure(listing: ListingSource)
    requires ListedRefs(listing).Failure?
    ensures exists p :: && 1 <= p <= PageCount
                        && GetTopGames(p, listing) == Failure(ListedRefs(listing).error)
                        && forall q :: 1 <= q < p ==> GetTopGames(q, listing).Success?
  {
    ListedRefsFromFailure(listing, 1);
  }

  /**
   A single failing listing page aborts the page loop, whether its request
   failed or one of its anchors threw: no partial result survives.
   */
  lemma ListedRefsFromFails(listing: ListingSource, first: nat, page: nat)
    requires first <= page <= PageCount
    requires GetTopGames(page, listing).Failure?
    ensures ListedRefsFrom(first, listing).Failure?
  {
    ListedRefsFromAllOrNothing(listing, first);
  }

  /** A single failing listing page among pages 1 to 10 makes the whole run fail, with that page loop's error. */
  lemma RunFailsOnAnyPage(listing: ListingSource, details: DetailSource, page: nat)
    requires 1 <= page <= PageCount
    requires GetTopGames(page, listing).Failure?
    ensures ListedRefs(listing).Failure?
    ensures Run(listing, details) == Failure(ListedRefs(listing).error)
  {
    ListedRefsFromFails(listing, 1, page);
  }

  /** Prepends what a loop has already accumulated to the outcome of what is left. */
  function After<T, E>(done: seq<T>, rest: Result<seq<T>, E>): Result<seq<T>, E>
  {
    match rest
    case Success(v) => Success(done + v)
    case Failure(e) => Failure(e)
  }

  lemma AfterAppend<T, E>(done: seq<T>, step: seq<T>, rest: Result<seq<T>, E>)
    ensures After(done, After(step, rest)) == After(done + step, rest)
  {
    if rest.Success? {
      assert done + (step + rest.value) == done + step + rest.value;
    }
  }

  /** The page loop of `getGames`. */
  method GetAllTopGames(listing: ListingSource) returns (r: Result<seq<GameRef>, Error>)
    ensures r == ListedRefs(listing)
  {
    var games: seq<GameRef> := [];
    var i := 1;
    assert After([], ListedRefs(listing)) == ListedRefs(listing) by {
      if ListedRefs(listing).Success? {
        assert [] + ListedRefs(listing).value == ListedRefs(listing).value;
      }
    }
    while i <= PageCount
      invariant ListedRefs(listing) == After(games, ListedRefsFrom(i, listing))
    {
      var page := GetTopGames(i, listing);
      if page.Failure? {
        return Failure(page.error);
      }
      AfterAppend(games, page.value, ListedRefsFrom(i + 1, listing));
      games := games + page.value;
      i := i + 1;
    }
    assert games + [] == games;
    r := Success(games);
  }

  /** The batch loop of `getGames`: `games.slice(i, i + stepSize)` for `i = 0, 20, 40, …`. */
  method GetGameInfos(games: seq<GameRef>, details: DetailSource) returns (r: Result<seq<Record>, Error>)
    ensures r == Enrich(games, details)
  {
    var gameInfos: seq<Record> := [];
    var i := 0;
    assert After([], Enrich(games, details)) == Enrich(games, details) by {
      if Enrich(games, details).Success? {
        assert [] + Enrich(games, details).value == Enrich(games, details).value;
      }
    }
    while i < |games|
      invariant Enrich(games, details) == After(gameInfos, EnrichFrom(games, i, details))
    {
      var gameGroup := games[i..Min(i + StepSize, |games|)];
      var batch := FetchGameInfo(gameGroup, details);
      if batch.Failure? {
        return Failure(batch.error);
      }
      AfterAppend(gameInfos, batch.value, EnrichFrom(games, i + StepSize, details));
      gameInfos := gameInfos + batch.value;
      i := i + StepSize;
    }
    assert gameInfos + [] == gameInfos;
    r := Success(gameInfos);
  }

  /** `getGames`: the page loop, then the batch loop over everything it listed. */
  method GetGames(listing: ListingSource, details: DetailSource) returns (r: Result<seq<Record>, Error>)
    ensures r == Run(listing, details)
  {
    var games := GetAllTopGames(listing);
    if games.Failure? {
      return Failure(games.error);
    }
    r := GetGameInfos(games.value, details);
  }
}
