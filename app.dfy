/**
  The backend route of the service: `/scan` takes a JSON body with the `url` of a
  product listing and answers with the verdict record the truth engine builds from
  that listing.

  The HTTP fetch and the HTML lookups are not modelled: what the engine learns from
  the listing is a `Fetch`, either the exception `requests.get` raised or the status
  of the response together with the text of the title and the price elements when
  the page has them.
*/
module App {
  import opened Wrappers
  import opened PyStr

  /** What fetching and parsing the listing yields. */
  datatype Fetch =
    | Raised(message: string)
    | Response(status: int, title: Option<string>, price: Option<string>)

  const BlockedVerdict := "\U{26A0}\U{FE0F} BLOCKED"
  const OnlineVerdict := "\U{2705} ONLINE"
  const ErrorVerdict := "\U{274C} ERROR"
  const BotReason := "Bot detection triggered"
  const TitlePlaceholder := "Title Not Found"
  const PricePlaceholder := "Hidden"
  const NoUrlError := "No URL provided"

  /** The most characters of the title the record shows. */
  const TitleWidth := 100

  /** Python's `s[:n]` for `n >= 0`. */
  function Take(s: string, n: nat): (r: string)
    ensures |r| == if |s| <= n then |s| else n
    ensures r == s[..|r|]
  {
    if |s| <= n then s else s[..n]
  }

  /**
    The `product` field: the stripped title, or the placeholder when the page has no
    title, cut to its first 100 characters and followed by `...`.
  */
  function ProductField(title: Option<string>): (r: string)
    ensures |r| <= TitleWidth + 3 && EndsWith(r, "...")
    ensures var shown := if title.Some? then Strip(title.value) else TitlePlaceholder;
            && |r| - 3 == (if |shown| <= TitleWidth then |shown| else TitleWidth)
            && r[..|r| - 3] == shown[..|r| - 3]
  {
    var shown := if title.Some? then Strip(title.value) else TitlePlaceholder;
    Take(shown, TitleWidth) + "..."
  }

  /**
    The `price` field: `₹` and then the price text with every `.` removed and the
    surrounding whitespace stripped, or `₹Hidden` when the page shows no price.
  */
  function PriceField(price: Option<string>): (r: string)
    ensures |r| >= 1 && r[0] == Rupee
    ensures price.None? ==> r[1..] == PricePlaceholder
    ensures price.Some? ==>
      && '.' !in r && Stripped(r[1..])
      && exists i :: Padded(RemoveAll(price.value, '.'), i, r[1..])
  {
    if price.Some? then
      var dropped := RemoveAll(price.value, '.');
      RemoveAllMembers(price.value, '.');
      StripShape(dropped);
      var body := Strip(dropped);
      assert forall k :: 0 <= k < |body| ==> body[k] in dropped;
      [Rupee] + body
    else
      [Rupee] + PricePlaceholder
  }

  /**
    `ziva_truth_engine`: a raised exception gives the error verdict with its message;
    a status other than 200 the blocked verdict; a 200 response the online verdict
    with exactly the product and price fields.
  */
  function TruthEngine(f: Fetch): (r: map<string, string>)
    ensures "verdict" in r
    ensures f.Raised? ==>
      r.Keys == {"verdict", "reason"} && r["verdict"] == ErrorVerdict && r["reason"] == f.message
    ensures f.Response? && f.status != 200 ==>
      r.Keys == {"verdict", "reason"} && r["verdict"] == BlockedVerdict && r["reason"] == BotReason
    ensures f.Response? && f.status == 200 ==>
      && r.Keys == {"verdict", "product", "price"} && r["verdict"] == OnlineVerdict
      && r["product"] == ProductField(f.title) && r["price"] == PriceField(f.price)
  {
    match f
    case Raised(message) => map["verdict" := ErrorVerdict, "reason" := message]
    case Response(status, title, price) =>
      if status != 200 then map["verdict" := BlockedVerdict, "reason" := BotReason]
      else map["verdict" := OnlineVerdict, "product" := ProductField(title), "price" := PriceField(price)]
  }

  /** The HTTP answer of a route: its status and the fields of its JSON object. */
  datatype HttpReply = HttpReply(status: int, fields: map<string, string>)

  /**
    `scan_endpoint`: a request without a JSON object, or whose object has no `url`
    (an empty object included), is answered 400 with the error message; any other
    is answered with what the engine makes of the listing at that URL.
  */
  function ScanEndpoint(body: Option<map<string, string>>, fetch: string -> Fetch): (reply: HttpReply)
    ensures body.None? || "url" !in body.value ==>
      reply.status == 400 && reply.fields.Keys == {"error"} && reply.fields["error"] == NoUrlError
    ensures body.Some? && "url" in body.value ==>
      reply.status == 200 && reply.fields == TruthEngine(fetch(body.value["url"]))
  {
    if body.None? || "url" !in body.value then
      HttpReply(400, map["error" := NoUrlError])
    else
      HttpReply(200, TruthEngine(fetch(body.value["url"])))
  }

  /** A request without a URL is rejected whatever the listing would have given: the engine is not consulted. */
  lemma RejectedWithoutEngine(body: Option<map<string, string>>, fetch: string -> Fetch, other: string -> Fetch)
    requires body.None? || "url" !in body.value
    ensures ScanEndpoint(body, fetch) == ScanEndpoint(body, other)
  {
  }

  /** The three verdicts of the engine are different texts. */
  lemma VerdictsDistinct()
    ensures BlockedVerdict != OnlineVerdict && OnlineVerdict != ErrorVerdict && ErrorVerdict != BlockedVerdict
  {
    assert BlockedVerdict[0] != OnlineVerdict[0] && OnlineVerdict[0] != ErrorVerdict[0];
    assert ErrorVerdict[0] != BlockedVerdict[0];
  }

  /** A title of at most 100 characters, without surrounding whitespace, is shown whole. */
  lemma ShortTitleShownWhole(title: string)
    requires |title| <= TitleWidth && Stripped(title)
    ensures ProductField(Some(title)) == title + "..."
  {
    StripOfStripped(title);
  }
}
