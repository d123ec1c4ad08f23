/**
 The detail side: the declarative field table, the two retrievers, and the
 construction of one record per `boardgame` element of the XML response.
 The CSS selector engine is abstracted: a game element answers each selector
 with its first matching descendant, or nothing.
 */
module Records {
  import opened Wrappers
  import opened Site

  /** The JavaScript values a record field can hold. */
  datatype JsValue = Str(s: string) | Null | Undefined

  /** JavaScript truthiness of a field value. */
  predicate Truthy(v: JsValue)
  {
    v.Str? && v.s != ""
  }

  /** `a || b` */
  function Or(a: JsValue, b: JsValue): JsValue
  {
    if Truthy(a) then a else b
  }

  /** A value as a template literal `${...}` renders it. */
  function TemplateString(v: JsValue): string
  {
    match v
    case Str(s) => s
    case Null => "null"
    case Undefined => "undefined"
  }

  /** An XML element: its text content and its attributes. */
  datatype Elt = Elt(textContent: string, attributes: map<string, string>)

  /** `getAttribute(name)`: the attribute's value, or `null` when it is not set. */
  function GetAttribute(attributes: map<string, string>, name: string): (v: JsValue)
    ensures v.Str? <==> name in attributes
    ensures v.Str? ==> v.s == attributes[name]
    ensures v != Undefined
  {
    if name in attributes then Str(attributes[name]) else Null
  }

  /**
   A `boardgame` element: its own attributes, and the first descendant each
   selector matches (a selector missing from the map matches nothing).
   */
  datatype GameElt = GameElt(attributes: map<string, string>, firstMatch: map<string, Elt>)

  /** `gameElt.querySelector(selector)` */
  function QuerySelector(g: GameElt, selector: string): Option<Elt>
  {
    if selector in g.firstMatch then Some(g.firstMatch[selector]) else None
  }

  /** The retrievers the field table uses. */
  datatype Retriever =
    | TextOrEmpty                // `defaultRetriever`: `elt?.textContent || ""`
    | AttributeOf(name: string)  // `elt => elt?.getAttribute(name)`

  function Retrieve(retriever: Retriever, elt: Option<Elt>): JsValue
  {
    match retriever
    case TextOrEmpty =>
      Or(if elt.Some? then Str(elt.value.textContent) else Undefined, Str(""))
    case AttributeOf(name) =>
      if elt.Some? then GetAttribute(elt.value.attributes, name) else Undefined
  }

  /** The default retriever always yields a string: the text when the element exists, else empty. */
  lemma DefaultRetrieverIsText(elt: Option<Elt>)
    ensures Retrieve(TextOrEmpty, elt) == Str(if elt.Some? then elt.value.textContent else "")
  {
  }

  /** An attribute retriever: `undefined` without an element, `null` without the attribute. */
  lemma AttributeRetrieverCases(name: string, elt: Option<Elt>)
    ensures elt.None? ==> Retrieve(AttributeOf(name), elt) == Undefined
    ensures elt.Some? && name !in elt.value.attributes ==> Retrieve(AttributeOf(name), elt) == Null
    ensures elt.Some? && name in elt.value.attributes ==>
              Retrieve(AttributeOf(name), elt) == Str(elt.value.attributes[name])
  {
  }

  /** An entry of the field table: a bare selector, or a `{selector, retriever}` object. */
  datatype Fetcher =
    | Selector(selector: string)
    | WithRetriever(selector: string, retriever: Retriever)

  /** JavaScript truthiness of a table entry: every object is truthy, a string when non-empty. */
  predicate FetcherTruthy(f: Fetcher)
  {
    f.WithRetriever? || f.selector != ""
  }

  /** `a || b` on table entries, as written for the rank entry. */
  function FetcherOr(a: Fetcher, b: Fetcher): Fetcher
  {
    if FetcherTruthy(a) then a else b
  }

  /** The `|| ""` after the rank object never applies: an object literal is always truthy. */
  lemma RankFallbackIsDead(selector: string, retriever: Retriever)
    ensures FetcherOr(WithRetriever(selector, retriever), Selector("")) == WithRetriever(selector, retriever)
  {
  }

  /** The selector and retriever `scrapeGame` uses for an entry (`typeof fetcher === "object"`). */
  function Resolve(f: Fetcher): (string, Retriever)
  {
    match f
    case Selector(sel) => (sel, TextOrEmpty)
    case WithRetriever(sel, ret) => (sel, ret)
  }

  const RankSelector: string := "rank[name=\"boardgame\"]"

  /** `desiredInfo`, in declaration order (the order `Object.entries` reports). */
  const DesiredInfo: seq<(string, Fetcher)> := [
    ("name", Selector("name[primary=\"true\"]")),
    ("rank", FetcherOr(WithRetriever(RankSelector, AttributeOf("value")), Selector(""))),
    ("averageRating", Selector("ratings average")),
    ("bggRating", Selector("ratings bayesaverage")),
    ("numRatings", Selector("usersrated")),
    ("numOwned", Selector("owned")),
    ("weight", Selector("averageweight")),
    ("minPlayers", Selector("minplayers")),
    ("maxPlayers", Selector("maxplayers")),
    ("minTime", Selector("minplaytime")),
    ("maxTime", Selector("maxplaytime"))
  ]

  /** The columns of the exported table: the record's keys in insertion order. */
  const Columns: seq<string> := [
    "id", "name", "rank", "averageRating", "bggRating", "numRatings", "numOwned",
    "weight", "minPlayers", "maxPlayers", "minTime", "maxTime", "link"
  ]

  /** A JavaScript object as its entries in insertion order. */
  type Record = seq<(string, JsValue)>

  /** The keys of a list of entries, in order. */
  function Keys<V>(entries: seq<(string, V)>): (ks: seq<string>)
    ensures |ks| == |entries|
    ensures forall i :: 0 <= i < |entries| ==> ks[i] == entries[i].0
  {
    if |entries| == 0 then [] else [entries[0].0] + Keys(entries[1..])
  }

  lemma KeysAppend<V>(a: seq<(string, V)>, b: seq<(string, V)>)
    ensures Keys(a + b) == Keys(a) + Keys(b)
  {
  }

  /** The value stored under `key`, or `undefined` when the object has no such key. */
  function Get(r: Record, key: string): JsValue
  {
    if |r| == 0 then Undefined else if r[0].0 == key then r[0].1 else Get(r[1..], key)
  }

  /** Positions and keys of an object built as one entry, then `middle`, then one more entry. */
  lemma Bracketed<V>(first: (string, V), middle: seq<(string, V)>, last: (string, V))
    ensures var r := [first] + middle + [last];
            && |r| == |middle| + 2
            && r[0] == first
            && r[|r| - 1] == last
            && (forall k :: 1 <= k <= |middle| ==> r[k] == middle[k - 1])
            && Keys(r) == [first.0] + Keys(middle) + [last.0]
  {
    KeysAppend([first], middle);
    KeysAppend([first] + middle, [last]);
  }

  /** The table's names are the columns between `id` and `link`. */
  lemma TableColumns()
    ensures Columns == ["id"] + Keys(DesiredInfo) + ["link"]
  {
    var ks := Keys(DesiredInfo);
    assert ks[0] == "name" && ks[1] == "rank" && ks[2] == "averageRating" && ks[3] == "bggRating";
    assert ks[4] == "numRatings" && ks[5] == "numOwned" && ks[6] == "weight" && ks[7] == "minPlayers";
    assert ks[8] == "maxPlayers" && ks[9] == "minTime" && ks[10] == "maxTime";
    assert ks == Columns[1..12];
    assert Columns == [Columns[0]] + Columns[1..12] + [Columns[12]];
  }

  /** The `forEach` over the field table: one entry per table row, in table order. */
  function ScrapeFields(g: GameElt, table: seq<(string, Fetcher)>): (fields: Record)
    ensures Keys(fields) == Keys(table)
    ensures forall k :: 0 <= k < |table| ==>
              fields[k].1 == Retrieve(Resolve(table[k].1).1, QuerySelector(g, Resolve(table[k].1).0))
  {
    if |table| == 0 then []
    else
      var (sel, ret) := Resolve(table[0].1);
      [(table[0].0, Retrieve(ret, QuerySelector(g, sel)))] + ScrapeFields(g, table[1..])
  }

  /** `scrapeGame`: `id`, then the table's fields, then `link`. */
  function ScrapeGame(g: GameElt): Record
  {
    var id := GetAttribute(g.attributes, "objectid");
    [("id", id)] + ScrapeFields(g, DesiredInfo) + [("link", Str(BggUrl + "/boardgame/" + TemplateString(id)))]
  }

  /**
   A record has `id` first, holding the element's `objectid`; the table's
   fields next, in table order, each read with its own selector and
   retriever; and `link` last, built from the same `objectid`.
   */
  lemma ScrapeGameShape(g: GameElt)
    ensures var r := ScrapeGame(g);
            && Keys(r) == ["id"] + Keys(DesiredInfo) + ["link"]
            && r[0].1 == GetAttribute(g.attributes, "objectid")
            && r[|r| - 1].1 == Str(BggUrl + "/boardgame/" + TemplateString(GetAttribute(g.attributes, "objectid")))
            && forall k :: 1 <= k <= |DesiredInfo| ==>
                 r[k].1 == Retrieve(Resolve(DesiredInfo[k - 1].1).1, QuerySelector(g, Resolve(DesiredInfo[k - 1].1).0))
  {
    var id := GetAttribute(g.attributes, "objectid");
    Bracketed(("id", id), ScrapeFields(g, DesiredInfo), ("link", Str(BggUrl + "/boardgame/" + TemplateString(id))));
  }

  /** The record's keys, in order, are exactly the exported columns. */
  lemma RecordColumns(g: GameElt)
    ensures Keys(ScrapeGame(g)) == Columns
  {
    ScrapeGameShape(g);
    TableColumns();
  }

  /** `scrapeGameXml`: one record per `boardgame` element, in document order. */
  function ScrapeGameXml(doc: seq<GameElt>): (records: seq<Record>)
    ensures |records| == |doc|
    ensures forall i :: 0 <= i < |doc| ==> records[i] == ScrapeGame(doc[i])
  {
    if |doc| == 0 then [] else [ScrapeGame(doc[0])] + ScrapeGameXml(doc[1..])
  }

  /** The value of a key of an object whose keys are distinct is the value stored at its position. */
  lemma {:induction false} GetAt(r: Record, j: nat)
    requires j < |r|
    requires forall a, b :: 0 <= a < b < |r| ==> r[a].0 != r[b].0
    ensures Get(r, r[j].0) == r[j].1
    decreases j
  {
    if j > 0 {
      assert r[1..][j - 1] == r[j];
      GetAt(r[1..], j - 1);
    }
  }

  /** No column name occurs twice. */
  lemma ColumnsDistinct()
    ensures forall a, b :: 0 <= a < b < |Columns| ==> Columns[a] != Columns[b]
  {
  }

  /**
   Every field the table reads with the default retriever is a string: the
   text of the first matching element, or empty when nothing matches.
   */
  lemma DefaultFieldIsString(g: GameElt, k: nat)
    requires k < |DesiredInfo| && DesiredInfo[k].1.Selector?
    ensures Get(ScrapeGame(g), DesiredInfo[k].0) ==
              Str(match QuerySelector(g, DesiredInfo[k].1.selector)
                  case Some(e) => e.textContent
                  case None => "")
  {
    var r := ScrapeGame(g);
    ScrapeGameShape(g);
    RecordColumns(g);
    ColumnsDistinct();
    assert Keys(r)[k + 1] == r[k + 1].0;
    GetAt(r, k + 1);
    DefaultRetrieverIsText(QuerySelector(g, DesiredInfo[k].1.selector));
  }

  /**
   The rank is read from the `value` attribute of the first
   `rank[name="boardgame"]` element: `undefined` when there is no such
   element, `null` when it has no `value`, never the `""` fallback.
   */
  lemma RankField(g: GameElt)
    ensures var elt := QuerySelector(g, RankSelector);
            Get(ScrapeGame(g), "rank") ==
              if elt.None? then Undefined
              else if "value" !in elt.value.attributes then Null
              else Str(elt.value.attributes["value"])
  {
    var r := ScrapeGame(g);
    ScrapeGameShape(g);
    RecordColumns(g);
    ColumnsDistinct();
    assert Keys(r)[2] == r[2].0;
    GetAt(r, 2);
    RankFallbackIsDead(RankSelector, AttributeOf("value"));
  }

  /** The `id` and `link` columns both come from the element's `objectid` attribute. */
  lemma IdAndLink(g: GameElt)
    ensures Get(ScrapeGame(g), "id") == GetAttribute(g.attributes, "objectid")
    ensures "objectid" in g.attributes ==>
              Get(ScrapeGame(g), "link") == Str(BggUrl + "/boardgame/" + g.attributes["objectid"])
  {
    var r := ScrapeGame(g);
    ScrapeGameShape(g);
    RecordColumns(g);
    ColumnsDistinct();
    assert Keys(r)[0] == r[0].0;
    assert Keys(r)[12] == r[12].0;
    GetAt(r, 0);
    GetAt(r, 12);
  }
}
