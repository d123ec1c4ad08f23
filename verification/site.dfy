/** The remote site and the ways talking to it can fail. */
module Site {

  /** Base of every URL the scraper builds. */
  const BggUrl: string := "https://boardgamegeek.com"

  /** The exceptions that abort a run. */
  datatype Error =
    | FetchFailed(url: string)   // the request or the parse of its response failed
    | MissingHref(name: string)  // an anchor had no href, so `link.match` throws
    | NoIdInLink(link: string)   // the id pattern did not match, so `match[1]` throws
}
