/** One page of the ranked listing: every game-name anchor becomes a `GameRef`. */
module Listing {
  import opened Wrappers
  import opened Text
  import opened Site
  import opened IdPattern

  /** A `.collection_objectname a` element: its `href` attribute (`null` when absent) and its text. */
  datatype Anchor = Anchor(href: Option<string>, text: string)

  datatype GameRef = GameRef(name: string, id: string, link: string)

  /** The mapping callback of `getTopGames`: one anchor to one ref, or the exception it throws. */
  function ToRef(a: Anchor): (r: Result<GameRef, Error>)
    ensures r.Success? <==> a.href.Some? && ExtractId(a.href.value).Some?
    ensures a.href.None? ==> r == Failure(MissingHref(a.text))
    ensures a.href.Some? && ExtractId(a.href.value).None? ==> r == Failure(NoIdInLink(a.href.value))
    ensures r.Success? ==>
              && r.value.name == a.text
              && r.value.link == BggUrl + a.href.value
              && IsCapture(a.href.value, r.value.id)
              && |r.value.id| > 0 && AllDigits(r.value.id)
  {
    match a.href
    case None => Failure(MissingHref(a.text))
    case Some(link) =>
      match ExtractId(link)
      case None => Failure(NoIdInLink(link))
      case Some(id) =>
        ExtractIdIsCapture(link, id);
        Success(GameRef(a.text, id, BggUrl + link))
  }

  /**
   `anchors.map(...)` in `getTopGames`: one ref per anchor in document order,
   or the exception of the first anchor that throws.
   */
  function TopGames(anchors: seq<Anchor>): (r: Result<seq<GameRef>, Error>)
    ensures r.Success? <==> forall i :: 0 <= i < |anchors| ==> ToRef(anchors[i]).Success?
    ensures r.Success? ==> |r.value| == |anchors|
  {
    MapAll(anchors, ToRef)
  }

  /** A page with a malformed anchor fails with that anchor's error, the first such anchor in document order. */
  lemma TopGamesFailure(anchors: seq<Anchor>)
    requires TopGames(anchors).Failure?
    ensures exists i :: && 0 <= i < |anchors|
                        && ToRef(anchors[i]) == Failure(TopGames(anchors).error)
                        && forall j :: 0 <= j < i ==> ToRef(anchors[j]).Success?
  {
    MapAllFailure(anchors, ToRef);
  }

  /** Every ref of a page carries the anchor's text, the site-qualified href and the id the pattern captures. */
  lemma TopGamesRefs(anchors: seq<Anchor>, i: nat)
    requires TopGames(anchors).Success?
    requires i < |anchors|
    ensures anchors[i].href.Some?
    ensures TopGames(anchors).value[i] ==
              GameRef(anchors[i].text, ExtractId(anchors[i].href.value).value, BggUrl + anchors[i].href.value)
    ensures IsCapture(anchors[i].href.value, TopGames(anchors).value[i].id)
  {
    assert ToRef(anchors[i]) == Success(TopGames(anchors).value[i]);
  }

  /** The site URL contains no `/boardgame/`: `//boardgamegeek.com` breaks off before the second slash. */
  lemma SiteUrlHasNoMatch(href: string)
    ensures forall j: nat :: j < |BggUrl| ==> !MatchesAt(BggUrl + href, j)
  {
    var w := BggUrl + href;
    forall j: nat | j < |BggUrl|
      ensures !MatchesAt(w, j)
    {
      if j + |Marker| < |w| {
        assert w[j..j + |Marker|][0] == w[j] == BggUrl[j];
        assert w[j..j + |Marker|][1] == w[j + 1];
        assert w[j..j + |Marker|][10] == w[j + 10];
        if j == 7 {
          assert w[17] == 'g';
        } else if j == 6 {
          assert w[7] == '/';
        } else {
          assert BggUrl[j] != '/';
        }
      }
    }
  }

  /** The link of every ref yields, by the same pattern, the ref's own id. */
  lemma LinkYieldsId(a: Anchor)
    requires ToRef(a).Success?
    ensures ExtractId(ToRef(a).value.link) == Some(ToRef(a).value.id)
  {
    SiteUrlHasNoMatch(a.href.value);
    PrefixKeepsId(BggUrl, a.href.value);
  }
}
