/**
  The competitor price hunter: one first-match scan over the candidates scraped from
  a Flipkart search page, one check of the first product card of a Croma search
  page, and the manager that searches both stores with the cleaned title and lists
  the offers found, Flipkart's first.

  The browser is not modelled: each store's search page is a function from the URL
  visited to what the page script extracts from it, and `fuzz.partial_ratio` is a
  caller-supplied similarity with scores in 0..100.
*/
module PriceHunter {
  import opened Wrappers
  import opened PyStr
  import opened Scraping

  type Percent = x: int | 0 <= x <= 100

  /** `fuzz.partial_ratio`, a library call the model takes as given. */
  type Similarity = (string, string) -> Percent

  /** The store an offer comes from; `Label` is the `site` text the offer carries. */
  datatype Store = Flipkart | Croma {
    function Label(): string {
      match this
      case Flipkart => "Flipkart"
      case Croma => "Croma"
    }
  }
  const FlipkartBase := "https://www.flipkart.com"
  const CromaBase := "https://www.croma.com"

  /** Both store addresses are web addresses. */
  lemma StoreBasesAreWeb()
    ensures StartsWith(FlipkartBase, "http") && StartsWith(CromaBase, "http")
  {
    assert FlipkartBase[..4] == "http" && CromaBase[..4] == "http";
  }

  /** A Flipkart candidate must score strictly above this to be taken. */
  const FlipkartFloor := 60
  /** A Croma card must score strictly above this to be taken. */
  const CromaFloor := 50

  /** The offer a store scan returns. Flipkart's link is `null` when its card has no anchor. */
  datatype Offer = Offer(site: Store, title: string, price: int, link: Option<string>)

  /** A Flipkart search result card: title and price text are always present, the href may not be. */
  datatype FlipkartItem = FlipkartItem(title: string, price: string, link: Option<string>)

  /** The first Croma product card: each field is `None` when its element or attribute is missing. */
  datatype CromaCard = CromaCard(title: Option<string>, price: Option<string>, link: Option<string>)

  function FlipkartSearchUrl(query: string): string {
    "https://www.flipkart.com/search?q=" + query
  }

  function CromaSearchUrl(query: string): string {
    "https://www.croma.com/searchB?q=" + query + "%20"
  }

  // ---------------------------------------------------------------------------
  // Flipkart
  // ---------------------------------------------------------------------------

  /**
    A Flipkart price text as the scanner normalises it: every `₹` and `,` removed,
    the text before the first space kept, stripped and read by `int()`;
    `None` where `int()` raises.
  */
  function FlipkartPrice(text: string): Option<int> {
    ParseInt(Strip(BeforeFirst(RemoveAll(RemoveAll(text, Rupee), ','), ' ')))
  }

  /** The digits of a text once its `₹` and `,` are removed. */
  function PriceDigits(text: string): string {
    RemoveAll(RemoveAll(text, Rupee), ',')
  }

  /** A price text made of `₹`, `,` and at least one digit reads as the number its digits spell. */
  lemma FlipkartPriceOfDigits(text: string)
    requires forall k :: 0 <= k < |text| ==> IsDigit(text[k]) || text[k] == Rupee || text[k] == ','
    requires exists k :: 0 <= k < |text| && IsDigit(text[k])
    ensures AllDigits(PriceDigits(text))
    ensures FlipkartPrice(text) == Some(DigitsValue(PriceDigits(text)))
  {
    var d := PriceDigits(text);
    RemoveAllMembers(text, Rupee);
    RemoveAllMembers(RemoveAll(text, Rupee), ',');
    forall k | 0 <= k < |d| ensures IsDigit(d[k]) {
      assert d[k] in d;
    }
    var k :| 0 <= k < |text| && IsDigit(text[k]);
    assert text[k] in text;
    assert text[k] in d;
    assert ' ' !in d;
    BeforeFirstAbsent(d, ' ');
    DigitsStripped(d);
    ParseIntDigits(d);
  }

  /** Only the text before the first space counts: a struck-through old price after it is ignored. */
  lemma FlipkartPriceFirstToken(first: string, rest: string)
    requires ' ' !in first
    ensures FlipkartPrice(first + " " + rest) == FlipkartPrice(first)
  {
    RemoveAllConcat(first + " ", rest, Rupee);
    RemoveAllConcat(first, " ", Rupee);
    var a := RemoveAll(first, Rupee);
    var b := RemoveAll(rest, Rupee);
    assert RemoveAll(" ", Rupee) == " ";
    assert RemoveAll(" ", ',') == " ";
    RemoveAllConcat(a + " ", b, ',');
    RemoveAllConcat(a, " ", ',');
    var a' := RemoveAll(a, ',');
    RemoveAllMembers(first, Rupee);
    RemoveAllMembers(a, ',');
    assert ' ' !in a';
    BeforeFirstConcat(a', ' ', RemoveAll(b, ','));
    assert a' + " " + RemoveAll(b, ',') == a' + [' '] + RemoveAll(b, ',');
    BeforeFirstAbsent(a', ' ');
  }

  /** A rupee amount with a thousands separator, such as `₹1,299`, reads as its digits joined. */
  lemma FlipkartPriceGrouped(thousands: string, units: string)
    requires |thousands| > 0 && AllDigits(thousands) && AllDigits(units)
    ensures FlipkartPrice([Rupee] + thousands + [','] + units) == Some(DigitsValue(thousands + units))
  {
    var tail := thousands + [','] + units;
    var t := [Rupee] + thousands + [','] + units;
    assert t == [] + [Rupee] + tail;
    assert Rupee !in thousands && Rupee !in units && ',' !in thousands && ',' !in units;
    RemoveAllSeparator([], Rupee, tail);
    var once := RemoveAll(t, Rupee);
    assert once == tail;
    RemoveAllSeparator(thousands, ',', units);
    var d := thousands + units;
    assert RemoveAll(once, ',') == d;
    assert AllDigits(d);
    BeforeFirstAbsent(d, ' ');
    DigitsStripped(d);
    ParseIntDigits(d);
  }

  /** `"₹1,299"` gives 1299. */
  lemma FlipkartPriceExample()
    ensures FlipkartPrice("\U{20B9}1,299") == Some(1299)
  {
    FlipkartPriceGrouped("1", "299");
    assert [Rupee] + "1" + [','] + "299" == "\U{20B9}1,299";
    assert "1" + "299" == "1299";
    DigitsValueDecimal(1299);
    assert Decimal(1299) == "1299" by {
      assert Decimal(1) == "1" && Decimal(12) == "12" && Decimal(129) == "129";
    }
  }

  /**
    Flipkart's link: a present, non-empty href that does not start with `http` gets
    the store's address in front; any other href, a missing one included, is kept.
  */
  function FlipkartLink(href: Option<string>): (r: Option<string>)
    ensures r.None? <==> href.None?
    ensures Present(href) ==> StartsWith(r.value, "http") && EndsWith(r.value, href.value)
    ensures Present(href) && !StartsWith(href.value, "http") ==> r.value == FlipkartBase + href.value
    ensures !Present(href) || StartsWith(href.value, "http") ==> r == href
  {
    StoreBasesAreWeb();
    if Present(href) && !StartsWith(href.value, "http") then Some(CompleteLink(FlipkartBase, href.value)) else href
  }

  /** The two tests a Flipkart candidate must pass: its price parses, and its title scores above 60. */
  predicate FlipkartAccepts(query: string, item: FlipkartItem, ratio: Similarity) {
    FlipkartPrice(item.price).Some? && ratio(Lower(query), Lower(item.title)) > FlipkartFloor
  }

  /** The offer built from an accepted candidate. */
  function FlipkartOffer(item: FlipkartItem): (o: Offer)
    requires FlipkartPrice(item.price).Some?
    ensures o.site == Flipkart && o.title == item.title && Some(o.price) == FlipkartPrice(item.price)
    ensures o.link == FlipkartLink(item.link)
  {
    Offer(Flipkart, item.title, FlipkartPrice(item.price).value, FlipkartLink(item.link))
  }

  /**
    The position of the first accepted candidate, or the number of candidates when
    none is accepted.
  */
  function FirstAccepted(query: string, items: seq<FlipkartItem>, ratio: Similarity): (k: nat)
    ensures k <= |items|
    ensures k < |items| ==> FlipkartAccepts(query, items[k], ratio)
    ensures forall j :: 0 <= j < k ==> !FlipkartAccepts(query, items[j], ratio)
  {
    if items == [] then 0
    else if FlipkartAccepts(query, items[0], ratio) then 0
    else 1 + FirstAccepted(query, items[1..], ratio)
  }

  /** `k` is the first accepted candidate. */
  predicate IsFirstAccepted(query: string, items: seq<FlipkartItem>, ratio: Similarity, k: int) {
    && 0 <= k < |items|
    && FlipkartAccepts(query, items[k], ratio)
    && forall j :: 0 <= j < k ==> !FlipkartAccepts(query, items[j], ratio)
  }

  /**
    What the Flipkart scan returns: the offer of the first candidate, in list
    order, that passes both tests; every earlier one failed one of them; and
    nothing when no candidate passes.
  */
  function FlipkartPick(query: string, items: seq<FlipkartItem>, ratio: Similarity): (r: Option<Offer>)
    ensures r.None? <==> forall i :: 0 <= i < |items| ==> !FlipkartAccepts(query, items[i], ratio)
    ensures r.Some? ==> exists k :: IsFirstAccepted(query, items, ratio, k) && r.value == FlipkartOffer(items[k])
    ensures r.Some? ==> r.value.site == Flipkart
  {
    var k := FirstAccepted(query, items, ratio);
    if k < |items| then
      assert IsFirstAccepted(query, items, ratio, k);
      Some(FlipkartOffer(items[k]))
    else None
  }

  /**
    `search_flipkart` once the page has been read: scan the candidates in order,
    skip one whose price does not parse, and return the first one whose title
    scores above the floor. A page that fails to load yields no candidates.
  */
  method SearchFlipkart(query: string, products: seq<FlipkartItem>, ratio: Similarity) returns (offer: Option<Offer>)
    ensures offer == FlipkartPick(query, products, ratio)
  {
    for i := 0 to |products|
      invariant forall j :: 0 <= j < i ==> !FlipkartAccepts(query, products[j], ratio)
    {
      var item := products[i];
      var price := FlipkartPrice(item.price);
      if price.None? {
        continue;
      }
      if ratio(Lower(query), Lower(item.title)) > FlipkartFloor {
        assert FirstAccepted(query, products, ratio) == i;
        return Some(Offer(Flipkart, item.title, price.value, FlipkartLink(item.link)));
      }
    }
    return None;
  }

  // ---------------------------------------------------------------------------
  // Croma
  // ---------------------------------------------------------------------------

  /**
    A Croma price text as the scanner normalises it: every `₹` and `,` removed,
    stripped, and read by `int(float(...))`; `None` where that raises.
  */
  function CromaPrice(text: string): Option<int> {
    ParseFloatTrunc(Strip(RemoveAll(RemoveAll(text, Rupee), ',')))
  }

  /** A rupee amount with paise reads as its whole rupees. */
  lemma CromaPriceWithPaise(rupees: nat, paise: nat)
    ensures CromaPrice([Rupee] + Decimal(rupees) + "." + Decimal(paise)) == Some(rupees)
  {
    var a, b := Decimal(rupees), Decimal(paise);
    var body := a + "." + b;
    forall k | 0 <= k < |body|
      ensures IsDigit(body[k]) || body[k] == '.'
    {
      if k < |a| {
        assert body[k] == a[k];
      } else if k > |a| {
        assert body[k] == b[k - |a| - 1];
      }
    }
    assert body[0] == a[0] && body[|body| - 1] == b[|b| - 1];
    CromaPriceOfPlain(body);
    ParseFloatTruncFraction(rupees, paise);
    assert [Rupee] + Decimal(rupees) + "." + Decimal(paise) == [Rupee] + body;
  }

  /** A leading `₹` is the only thing removed from a text holding no other `₹` and no `,`. */
  lemma DropRupeeSign(body: string)
    requires Rupee !in body && ',' !in body
    ensures RemoveAll(RemoveAll([Rupee] + body, Rupee), ',') == body
  {
    var t := [Rupee] + body;
    assert t == [] + [Rupee] + body;
    RemoveAllSeparator([], Rupee, body);
    var once := RemoveAll(t, Rupee);
    assert once == body;
    RemoveAllAbsent(body, ',');
  }

  /** A `₹` in front of a plain decimal number is dropped before the number is converted. */
  lemma CromaPriceOfPlain(body: string)
    requires |body| > 0 && IsDigit(body[0]) && IsDigit(body[|body| - 1])
    requires forall k :: 0 <= k < |body| ==> IsDigit(body[k]) || body[k] == '.'
    ensures CromaPrice([Rupee] + body) == ParseFloatTrunc(body)
  {
    assert Rupee !in body && ',' !in body;
    DropRupeeSign(body);
    assert !IsSpace(body[0]) && !IsSpace(body[|body| - 1]);
    StripOfStripped(body);
  }

  /**
    `search_croma` once the page has been read (`None` when no card was found or the
    page failed): an offer only when the card has a title and a price, the price
    converts, the card has a link, and the title scores above the floor.
  */
  function SearchCroma(query: string, card: Option<CromaCard>, ratio: Similarity): (r: Option<Offer>)
    ensures r.Some? <==>
      && card.Some? && Present(card.value.title) && Present(card.value.price)
      && CromaPrice(card.value.price.value).Some?
      && card.value.link.Some?
      && ratio(Lower(query), Lower(card.value.title.value)) > CromaFloor
    ensures r.Some? ==>
      && r.value.site == Croma
      && Some(r.value.title) == card.value.title
      && Some(r.value.price) == CromaPrice(card.value.price.value)
      && r.value.link == Some(CompleteLink(CromaBase, card.value.link.value))
      && StartsWith(r.value.link.value, "http")
      && (StartsWith(card.value.link.value, "http") ==> r.value.link.value == card.value.link.value)
      && (!StartsWith(card.value.link.value, "http") ==> r.value.link.value == CromaBase + card.value.link.value)
  {
    if card.None? || !Present(card.value.title) || !Present(card.value.price) then None
    else
      var price := CromaPrice(card.value.price.value);
      // int(float(...)) raising, or `None.startswith`, ends the scan with None
      if price.None? || card.value.link.None? then None
      else
        StoreBasesAreWeb();
        var link := CompleteLink(CromaBase, card.value.link.value);
        if ratio(Lower(query), Lower(card.value.title.value)) > CromaFloor
        then Some(Offer(Croma, card.value.title.value, price.value, Some(link)))
        else None
  }

  // ---------------------------------------------------------------------------
  // The manager
  // ---------------------------------------------------------------------------

  /**
    `hunt`: clean the title, search both stores with it, and list what was found,
    Flipkart's offer (if any) before Croma's (if any).
  */
  method Hunt(originalTitle: string, flipkartPage: string -> seq<FlipkartItem>,
              cromaPage: string -> Option<CromaCard>, ratio: Similarity) returns (results: seq<Offer>)
    ensures var q := CleanQuery(originalTitle);
            var fk := FlipkartPick(q, flipkartPage(FlipkartSearchUrl(q)), ratio);
            var cr := SearchCroma(q, cromaPage(CromaSearchUrl(q)), ratio);
            && |results| == (if fk.Some? then 1 else 0) + (if cr.Some? then 1 else 0)
            && (fk.Some? ==> results[0] == fk.value)
            && (cr.Some? ==> results[|results| - 1] == cr.value)
    ensures |results| <= 2
    ensures |results| == 2 ==> results[0].site == Flipkart && results[1].site == Croma
  {
    var cleanQuery := CleanQuery(originalTitle);
    results := [];
    var res1 := SearchFlipkart(cleanQuery, flipkartPage(FlipkartSearchUrl(cleanQuery)), ratio);
    var res2 := SearchCroma(cleanQuery, cromaPage(CromaSearchUrl(cleanQuery)), ratio);
    if res1.Some? {
      results := results + [res1.value];
    }
    if res2.Some? {
      results := results + [res2.value];
    }
  }
}
