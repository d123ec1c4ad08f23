# bgg-scraper core in Dafny

A model of the data path of `fetch-games.js`, the BoardGameGeek top-games
scraper. The script reads ten listing pages. From each it takes the game
anchors and turns every one into a ref `{name, id, link}`. It then asks the
XML API for the refs' details in batches of twenty. Each `boardgame` element
of an answer becomes one record, built from a declarative field table. The
concatenation of all batches' records is the result.

Modules, one per concern of the script:

- `Wrappers`: `Option`, `Result`, and `MapAll`, which is JavaScript's `map`
  with a callback that may throw (the first exception aborts the map).
- `Site`: the site URL and the ways a run can fail.
- `Text`: digits, decimal numerals, `join` and `split` on one separator.
- `IdPattern`: the regular expression `/\/boardgame\/(\d+)/` with its first
  capture group. The match is leftmost and the digit run is greedy.
- `Listing`: an anchor turned into a ref, and a listing page turned into refs.
- `Batching`: `slice(i, i + 20)` for `i = 0, 20, 40, …`, as a chunking of the list.
- `Records`: JavaScript values (`undefined`, `null`, strings) and `||`; the
  two retrievers; the field table `desiredInfo`; `scrapeGame`; `scrapeGameXml`.
- `Pipeline`: the listing URL, the batch URL, `getTopGames`, `fetchGameInfo`
  and `getGames`. `getGames` appears both as a recursive reference definition
  and as the two loops the script runs. The loops are proved equal to it.

The network and the parser are parameters. A `ListingSource` maps a URL to
the anchors of `.collection_objectname a` on that page, or to `None` when the
request or the parse fails. A `DetailSource` maps a URL to the
`boardgames > boardgame` elements of the answer in the same way. An exception
anywhere in the script is a `Failure` in the model. It carries the failing
URL, the anchor without an `href`, or the link without an id.

## Model

| member | source | states |
|---|---|---|
| IdPattern.ExtractId | fetch-games.js:23-24 | the id is found exactly when the link contains `/boardgame/` followed by a digit; a found id is a non-empty digit string |
| IdPattern.ExtractIdIsCapture | fetch-games.js:23-24 | the returned id is exactly the first capture group: the match starts at the leftmost possible position and the digit run is maximal; both directions hold |
| IdPattern.NoMatchFails | fetch-games.js:23-24 | a link with no `/boardgame/<digit>` anywhere yields no id, so `match[1]` throws |
| IdPattern.LeadingId | fetch-games.js:23-24 | a link that starts with `/boardgame/<digits>` followed by a non-digit or nothing yields exactly those digits, whatever follows |
| IdPattern.PrefixKeepsId | fetch-games.js:23-25 | putting text in front of a link does not change its id when no match starts inside that text |
| Listing.ToRef | fetch-games.js:20-26 | an anchor becomes a ref exactly when it has an `href` with an id in it; the ref's name is the anchor text, its id is the first capture, its link is the site URL followed by the `href`; a missing `href` or a link without an id fails with that cause |
| Listing.TopGames | fetch-games.js:19-27 | a listing page succeeds exactly when every anchor does, with one ref per anchor in page order |
| Listing.TopGamesFailure | fetch-games.js:20-26 | a failed page reports the failure of the first anchor that fails; all anchors before it succeed |
| Listing.TopGamesRefs | fetch-games.js:20-25 | the i-th ref is built from the i-th anchor: its text, its captured id, its prefixed link |
| Listing.SiteUrlHasNoMatch | fetch-games.js:25 | no `/boardgame/` match can start inside the site URL, whatever link follows it |
| Listing.LinkYieldsId | fetch-games.js:23-25 | a ref's full link yields, by the same pattern, the ref's own id |
| Batching.Chunks | fetch-games.js:88-91 | the batches concatenate back to the refs in order; each holds 1 to 20 refs; all but the last hold exactly 20; there are none exactly when there are no refs |
| Batching.ChunksCount | fetch-games.js:89 | the number of batches, and so of detail requests, is the ceiling of the number of refs over 20 |
| Batching.ChunksContents | fetch-games.js:89-91 | batch k is the slice from `20k` to `min(20k + 20, n)` |
| Records.GetAttribute | fetch-games.js:49 | an attribute reads as its string when set and as `null` otherwise, never as `undefined` |
| Records.DefaultRetrieverIsText | fetch-games.js:32 | the default retriever yields the element's text, or the empty string when no element matched; never `null` or `undefined` |
| Records.AttributeRetrieverCases | fetch-games.js:35 | the rank retriever yields `undefined` when no element matched, `null` when the element lacks the attribute, and the attribute's string otherwise |
| Records.RankFallbackIsDead | fetch-games.js:35 | the empty-string fallback after the rank entry never applies, because an object literal is truthy |
| Records.TableColumns | fetch-games.js:33-62 | the exported columns are `id`, then the field table's names in declaration order, then `link` |
| Records.ScrapeFields | fetch-games.js:51-61 | the fields come one per table row, in table order; each value is the row's retriever applied to the first element its selector matches |
| Records.ScrapeGameShape | fetch-games.js:48-64 | a record is `id` from `objectid`, then one field per table row, then `link` built from the same `objectid` |
| Records.RecordColumns | fetch-games.js:49-62 | every record's keys, in order, are the thirteen columns `id, name, rank, averageRating, bggRating, numRatings, numOwned, weight, minPlayers, maxPlayers, minTime, maxTime, link` |
| Records.ColumnsDistinct | fetch-games.js:49-62 | no column name occurs twice, so each key reads back its own field |
| Records.DefaultFieldIsString | fetch-games.js:32-60 | every field whose table entry is a bare selector holds a string: the matched element's text or `""` |
| Records.RankField | fetch-games.js:35-59 | `rank` is `undefined` without a matching `rank` element, `null` when it has no `value`, and the `value` string otherwise |
| Records.IdAndLink | fetch-games.js:49-62 | `id` is the `objectid` attribute, or `null` when it is missing; when it is set, `link` is the site's `/boardgame/<objectid>` page |
| Records.ScrapeGameXml | fetch-games.js:66-70 | one record per game element, in document order |
| Text.SplitJoin | fetch-games.js:74 | splitting a comma-join on commas gives back the parts, when no part contains a comma |
| Text.DecimalString | fetch-games.js:16 | the page number is rendered as a decimal numeral without leading zeros whose value is the number |
| Wrappers.MapAll | fetch-games.js:20 | a map with a callback that may throw succeeds exactly when the callback succeeds on every element, with the results in order |
| Wrappers.MapAllFailure | fetch-games.js:20 | a failed map reports the first element whose callback failed |
| Pipeline.ListingUrlPage | fetch-games.js:16 | a listing URL is the fixed browse prefix followed by the page number in decimal |
| Pipeline.PageRefs | fetch-games.js:15-27 | a page that succeeds was fetched and yields one ref per anchor, in page order; each ref carries its anchor's text as name and the site-qualified `href` as link, and the link yields the ref's id again under the id pattern |
| Pipeline.PageFailure | fetch-games.js:15-27 | a page fails exactly when its request fails or one of its anchors has no `href` or no id; a failed request is reported with the page URL, a bad anchor with the error of the first such anchor |
| Pipeline.BatchUrlCarriesIds | fetch-games.js:73-74 | the detail URL of a non-empty batch of digit ids reads back to exactly those ids, in order, between `/xmlapi/boardgame/` and `?stats=1` |
| Pipeline.BatchRecords | fetch-games.js:66-77 | a successful batch has one record per game element of the answer, in answer order, each with the thirteen columns and with `id` equal to its element's `objectid` |
| Pipeline.EnrichIsChunked | fetch-games.js:87-95 | the batch loop's outcome is the concatenation of the per-batch outcomes over the 20-chunking of the refs |
| Pipeline.EnrichAllOrNothing | fetch-games.js:89-93 | the details step succeeds exactly when every batch's detail request succeeds |
| Pipeline.EnrichFailure | fetch-games.js:89-93 | a failed details step reports the URL of the first batch whose request failed |
| Pipeline.EnrichRecords | fetch-games.js:87-95 | a successful details step is the concatenation, in batch order, of the records scraped from each batch's answer |
| Pipeline.EnrichNothing | fetch-games.js:89 | with no refs no detail request is made and the result is empty |
| Pipeline.ListedRefsFromAllOrNothing | fetch-games.js:82-86 | the page loop from a given page on succeeds exactly when every page from there to page 10 succeeds |
| Pipeline.ListedRefsFromFailure | fetch-games.js:82-86 | a failed page loop reports the error of the first failing page; every page before it succeeded |
| Pipeline.ListedRefsAllOrNothing | fetch-games.js:81-86 | the listing of pages 1 to 10 succeeds exactly when each of the ten pages does |
| Pipeline.ListedRefsFailure | fetch-games.js:81-86 | a failed listing carries the error of the first failing page among 1 to 10; every earlier page succeeded |
| Pipeline.ListedRefsFromFails | fetch-games.js:82-86 | a page that fails, by its request or by an anchor without `href` or id, makes the page loop fail |
| Pipeline.RunFailsOnAnyPage | fetch-games.js:80-86 | a failing page among 1 to 10, by its request or by a bad anchor, makes the whole run fail with the listing's error; no partial result is returned |
| Pipeline.GetAllTopGames | fetch-games.js:81-86 | the page loop over pages 1 to 10 computes the concatenation of the pages' refs, or the first page failure |
| Pipeline.GetGameInfos | fetch-games.js:87-95 | the batch loop with `slice(i, i + 20)` computes the recursive batch-by-batch definition |
| Pipeline.GetGames | fetch-games.js:80-96 | `getGames` yields the listed refs enriched batch by batch, or the first failure on the way |

## Left out

- The HTTP client (`got`, lines 2, 16, 75) is not modelled. Each request is a lookup in a `ListingSource` or `DetailSource` parameter. A failed request is `None`.
- The HTML/XML parser and its selector engine (`jsdom`, lines 3, 6, 17, 19, 67, 76) are not modelled. A page is its list of anchors and a detail answer is its list of game elements. A game element answers each selector with its first matching descendant or nothing (`querySelector`, line 58).
- `sleep` and the `await`s (lines 10-12, 83, 90) are left out. They only space the requests out in time, and the requests stay in the same order.
- The progress messages (`console.log`, lines 84, 92, and `console.error`, line 109) are left out. They are output only.
- `exportCsv` and `fs` (lines 98-102) are left out. They are file output through a foreign library. The header they write is the record keys, stated by `Records.RecordColumns`.
- `fetchAndOutput` (lines 104-111) is not modelled as such. Its `try/catch` becomes `Result` propagation: the first error ends the run.
- Not every field of a record is a string. `rank` is `undefined` when the game has no `rank[name="boardgame"]` element and `null` when that element has no `value` (`Records.RankField`). `id` is `null` when the element has no `objectid` (`Records.IdAndLink`).
- Records.ScrapeGameXml: nothing makes a record's id one of the requested batch's ids. The script does not check this, so the model leaves it to the answer.
- Pipeline.BatchUrlCarriesIds: the batch must be non-empty. An empty batch is never requested, because `Batching.Chunks` gives no empty batches.
- The record's `id` is what the detail answer says, not the listing's id (`Records.IdAndLink`). A listing id that is not in the answer drops out silently, as in the script.
