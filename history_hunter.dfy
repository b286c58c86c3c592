/**
  The history hunter: search the price-history site with the cleaned title, follow
  the first product link of the results, and read the lowest and the average price
  the product page states.

  The browser is not modelled: the search page is a function from the URL visited
  to the `href` of its first product link (`None` when navigating or reading the
  page raised, `Some(None)` when the page has no such link), and the product page a
  function from its URL to the text of the page body (`None` when it raised).
*/
module HistoryHunter {
  import opened Wrappers
  import opened PyStr
  import opened Scraping

  const HistoryBase := "https://pricehistoryapp.com"
  const LowestLabel := "Lowest Price"
  const AverageLabel := "Average Price"

  function HistorySearchUrl(query: string): string {
    "https://pricehistoryapp.com/search?q=" + query
  }

  // ---------------------------------------------------------------------------
  // The pattern `<label>.*?₹([\d,]+)`, searched with re.IGNORECASE
  // ---------------------------------------------------------------------------

  /** `[\d,]`: a character of an amount. */
  predicate AmountChar(c: char) {
    IsDigit(c) || c == ','
  }

  /** The label occurs in the text at `i`, letters compared without regard to case. */
  predicate LabelAt(text: string, key: string, i: int) {
    && 0 <= i && i + |key| <= |text|
    && forall k :: 0 <= k < |key| ==> LowerChar(text[i + k]) == LowerChar(key[k])
  }

  /** A `₹` at `j` directly followed by a digit or a comma. */
  predicate AmountStart(text: string, j: int) {
    0 <= j && j + 1 < |text| && text[j] == Rupee && AmountChar(text[j + 1])
  }

  /** No line break in `text[a..b]`: what `.` may run over. */
  predicate SameLine(text: string, a: int, b: int)
    requires 0 <= a <= b <= |text|
  {
    forall k :: a <= k < b ==> text[k] != '\n'
  }

  /**
    The pattern matches with the label at `i` and the `₹` at `j`: the label, then any
    characters but a line break, then `₹` and at least one digit or comma.
  */
  predicate MatchAt(text: string, key: string, i: int, j: int) {
    && LabelAt(text, key, i)
    && i + |key| <= j
    && AmountStart(text, j)
    && SameLine(text, i + |key|, j)
  }

  /** The lazy `.*?₹[\d,]`: the first `₹` from `j` on that starts an amount before the line ends. */
  function FirstAmount(text: string, j: nat): Option<nat>
    decreases |text| - j
  {
    if j >= |text| then None
    else if AmountStart(text, j) then Some(j)
    else if text[j] == '\n' then None
    else FirstAmount(text, j + 1)
  }

  /** `FirstAmount` finds the nearest amount on the line, and nothing only when there is none. */
  lemma {:induction false} FirstAmountSpec(text: string, j: nat)
    requires j <= |text|
    ensures FirstAmount(text, j).Some? ==>
      var e := FirstAmount(text, j).value;
      && j <= e && AmountStart(text, e) && SameLine(text, j, e)
      && forall m :: j <= m < e ==> !AmountStart(text, m)
    ensures FirstAmount(text, j).None? ==>
      forall m :: j <= m < |text| && SameLine(text, j, m) ==> !AmountStart(text, m)
    decreases |text| - j
  {
    if j < |text| && !AmountStart(text, j) {
      if text[j] == '\n' {
        assert forall m :: j < m <= |text| ==> !SameLine(text, j, m);
      } else {
        FirstAmountSpec(text, j + 1);
      }
    }
  }

  /** `re.search`: the leftmost label position from `i` on where the pattern matches, and its `₹`. */
  function FindMatch(text: string, key: string, i: nat): Option<(nat, nat)>
    decreases |text| + 1 - i
  {
    if i + |key| > |text| then None
    else if LabelAt(text, key, i) && FirstAmount(text, i + |key|).Some? then
      Some((i, FirstAmount(text, i + |key|).value))
    else FindMatch(text, key, i + 1)
  }

  /**
    The match `re.search` reports: the pattern matches there, it matches at no
    earlier label position, and for that label the `₹` is the nearest one that
    starts an amount; no match is reported only when the pattern matches nowhere.
  */
  lemma {:induction false} FindMatchSpec(text: string, key: string, i: nat)
    ensures FindMatch(text, key, i).Some? ==>
      var (a, e) := FindMatch(text, key, i).value;
      && i <= a && MatchAt(text, key, a, e)
      && (forall m, n :: i <= m < a ==> !MatchAt(text, key, m, n))
      && forall n :: a + |key| <= n < e ==> !AmountStart(text, n)
    ensures FindMatch(text, key, i).None? ==>
      forall m, n :: i <= m ==> !MatchAt(text, key, m, n)
    decreases |text| + 1 - i
  {
    if i + |key| <= |text| {
      FirstAmountSpec(text, i + |key|);
      if !(LabelAt(text, key, i) && FirstAmount(text, i + |key|).Some?) {
        FindMatchSpec(text, key, i + 1);
        assert forall n :: !MatchAt(text, key, i, n);
      }
    }
  }

  /** The greedy `[\d,]+` from `j`: the digits and commas that follow, up to the first other character. */
  function AmountRun(text: string, j: nat): string
    decreases |text| - j
  {
    if j < |text| && AmountChar(text[j]) then [text[j]] + AmountRun(text, j + 1) else []
  }

  /** The run is the longest stretch of digits and commas starting at `j`. */
  lemma {:induction false} AmountRunSpec(text: string, j: nat)
    requires j <= |text|
    ensures var r := AmountRun(text, j);
      && j + |r| <= |text| && text[j..j + |r|] == r
      && (forall k :: 0 <= k < |r| ==> AmountChar(r[k]))
      && (j + |r| < |text| ==> !AmountChar(text[j + |r|]))
    decreases |text| - j
  {
    if j < |text| && AmountChar(text[j]) {
      AmountRunSpec(text, j + 1);
    }
  }

  /**
    One field of the history: `int(group(1).replace(",", ""))` for the first match
    of the label's pattern, 0 when it does not match, and `None` where `int()`
    raises, which it does for a run made of commas only.
  */
  function Amount(text: string, key: string): Option<int> {
    match FindMatch(text, key, 0)
    case None => Some(0)
    case Some((_, e)) => ParseInt(RemoveAll(AmountRun(text, e + 1), ','))
  }

  /** The digits of a run of digits and commas are its characters other than commas. */
  lemma RunDigits(run: string)
    requires forall k :: 0 <= k < |run| ==> AmountChar(run[k])
    ensures AllDigits(RemoveAll(run, ','))
  {
    var d := RemoveAll(run, ',');
    RemoveAllMembers(run, ',');
    forall k | 0 <= k < |d|
      ensures IsDigit(d[k])
    {
      assert d[k] in d;
    }
  }

  /** `int()` of digits is their value, and `int("")` raises. */
  lemma ParseIntOfRun(d: string)
    requires AllDigits(d)
    ensures ParseInt(d) == if d == [] then None else Some(DigitsValue(d))
  {
    if d != [] {
      ParseIntDigits(d);
    }
  }

  /**
    A field is 0 when the pattern matches nowhere; otherwise it is the value of the
    digits of the amount after the first match, or `None` when that amount holds
    no digit; a value read is never negative.
  */
  lemma AmountSpec(text: string, key: string)
    ensures (forall m, n :: !MatchAt(text, key, m, n)) ==> Amount(text, key) == Some(0)
    ensures FindMatch(text, key, 0).Some? <==> exists m, n :: MatchAt(text, key, m, n)
    ensures FindMatch(text, key, 0).Some? ==>
      var e := FindMatch(text, key, 0).value.1;
      var digits := RemoveAll(AmountRun(text, e + 1), ',');
      && AllDigits(digits)
      && Amount(text, key) == if digits == [] then None else Some(DigitsValue(digits))
    ensures Amount(text, key).Some? ==> Amount(text, key).value >= 0
  {
    FindMatchSpec(text, key, 0);
    if FindMatch(text, key, 0).Some? {
      var e := FindMatch(text, key, 0).value.1;
      AmountRunSpec(text, e + 1);
      var digits := RemoveAll(AmountRun(text, e + 1), ',');
      RunDigits(AmountRun(text, e + 1));
      ParseIntOfRun(digits);
    }
  }

  /** Characters before `e` that hold no line break and start no amount are skipped. */
  lemma {:induction false} FirstAmountSkips(text: string, j: nat, e: nat)
    requires j <= e && AmountStart(text, e)
    requires forall m :: j <= m < e ==> text[m] != '\n' && !AmountStart(text, m)
    ensures FirstAmount(text, j) == Some(e)
    decreases e - j
  {
    if j < e {
      FirstAmountSkips(text, j + 1, e);
    }
  }

  /** Digits and commas placed after `pre` and ended by the end of the text or another character are the run. */
  lemma {:induction false} AmountRunAfter(pre: string, run: string, rest: string)
    requires forall k :: 0 <= k < |run| ==> AmountChar(run[k])
    requires rest != [] ==> !AmountChar(rest[0])
    ensures AmountRun(pre + run + rest, |pre|) == run
    decreases |run|
  {
    var text := pre + run + rest;
    if run == [] {
      assert text == pre + rest;
      if rest != [] {
        assert text[|pre|] == rest[0];
      }
    } else {
      assert text[|pre|] == run[0];
      assert text == (pre + [run[0]]) + run[1..] + rest;
      AmountRunAfter(pre + [run[0]], run[1..], rest);
    }
  }

  /** On such a line the match is the label at the start and the `₹` after the gap. */
  lemma MatchAfterLabel(text: string, key: string, gap: string, amount: string, rest: string)
    requires '\n' !in gap && Rupee !in gap
    requires |amount| > 0 && AmountChar(amount[0])
    requires text == key + gap + [Rupee] + amount + rest
    ensures FindMatch(text, key, 0) == Some((0, |key| + |gap|))
  {
    var e := |key| + |gap|;
    assert LabelAt(text, key, 0) by {
      assert forall k :: 0 <= k < |key| ==> text[k] == key[k];
    }
    assert text[e] == Rupee && text[e + 1] == amount[0];
    forall m | |key| <= m < e
      ensures text[m] != '\n' && !AmountStart(text, m)
    {
      assert text[m] == gap[m - |key|];
    }
    FirstAmountSkips(text, |key|, e);
  }

  /** On such a line the match ends at the `₹` after the gap and its run is the whole amount. */
  lemma MatchedLine(text: string, key: string, gap: string, amount: string, rest: string)
    requires '\n' !in gap && Rupee !in gap
    requires |amount| > 0 && forall k :: 0 <= k < |amount| ==> AmountChar(amount[k])
    requires rest != [] ==> !AmountChar(rest[0])
    requires text == key + gap + [Rupee] + amount + rest
    ensures FindMatch(text, key, 0) == Some((0, |key| + |gap|))
    ensures AmountRun(text, |key| + |gap| + 1) == amount
  {
    AmountRunAfter(key + gap + [Rupee], amount, rest);
    MatchAfterLabel(text, key, gap, amount, rest);
  }

  /** A field read from the amount after a match is the value of its digits. */
  lemma AmountOfMatch(text: string, key: string, a: nat, e: nat, amount: string)
    requires FindMatch(text, key, 0) == Some((a, e))
    requires AmountRun(text, e + 1) == amount
    requires forall k :: 0 <= k < |amount| ==> AmountChar(amount[k])
    ensures var digits := RemoveAll(amount, ',');
            && AllDigits(digits)
            && Amount(text, key) == if digits == [] then None else Some(DigitsValue(digits))
  {
    RunDigits(amount);
    ParseIntOfRun(RemoveAll(amount, ','));
  }

  /**
    A page line holding the label, some text without a line break or `₹`, and then
    a `₹` amount such as `₹12,499`, gives the amount's digits: 12499.
  */
  lemma AmountAfterLabel(text: string, key: string, gap: string, amount: string, rest: string)
    requires '\n' !in gap && Rupee !in gap
    requires |amount| > 0 && forall k :: 0 <= k < |amount| ==> AmountChar(amount[k])
    requires rest != [] ==> !AmountChar(rest[0])
    requires text == key + gap + [Rupee] + amount + rest
    ensures var digits := RemoveAll(amount, ',');
            && AllDigits(digits)
            && Amount(text, key) == if digits == [] then None else Some(DigitsValue(digits))
  {
    MatchedLine(text, key, gap, amount, rest);
    AmountOfMatch(text, key, 0, |key| + |gap|, amount);
  }

  /** `₹12,499` after the label reads as 12499. */
  lemma AmountExample(gap: string, rest: string)
    requires '\n' !in gap && Rupee !in gap
    requires rest != [] ==> !AmountChar(rest[0])
    ensures Amount(LowestLabel + gap + [Rupee] + "12,499" + rest, LowestLabel) == Some(12499)
  {
    var amount := "12,499";
    assert forall k :: 0 <= k < |amount| ==> AmountChar(amount[k]);
    AmountAfterLabel(LowestLabel + gap + [Rupee] + amount + rest, LowestLabel, gap, amount, rest);
    assert amount == "12" + [','] + "499";
    RemoveAllSeparator("12", ',', "499");
    assert "12" + "499" == "12499";
    DigitsValueDecimal(12499);
    assert Decimal(12499) == "12499" by {
      assert Decimal(1) == "1" && Decimal(12) == "12" && Decimal(124) == "124" && Decimal(1249) == "1249";
    }
  }

  /** A page without any `₹` gives 0 for every label. */
  lemma AmountWithoutRupee(text: string, key: string)
    requires Rupee !in text
    ensures Amount(text, key) == Some(0)
  {
    AmountSpec(text, key);
    assert forall m, n :: !MatchAt(text, key, m, n) by {
      assert forall j :: !AmountStart(text, j);
    }
  }

  // ---------------------------------------------------------------------------
  // get_history
  // ---------------------------------------------------------------------------

  /** The record `get_history` returns: exactly the two fields. */
  datatype Stats = Stats(lowest: int, average: int)

  /**
    `get_history`: search with the cleaned title; with no product link there is no
    result; otherwise complete the link, read the product page and extract both
    fields. `None` also where a page raised or `int()` raised, and only then.
  */
  function GetHistory(query: string, searchPage: string -> Option<Option<string>>,
                      productPage: string -> Option<string>): (r: Option<Stats>)
    ensures var found := searchPage(HistorySearchUrl(CleanQuery(query)));
            found.Some? && !Present(found.value) ==> r.None?
    ensures var found := searchPage(HistorySearchUrl(CleanQuery(query)));
            r.None? <==>
              || found.None? || !Present(found.value)
              || var page := productPage(CompleteLink(HistoryBase, found.value.value));
                 || page.None?
                 || Amount(page.value, LowestLabel).None?
                 || Amount(page.value, AverageLabel).None?
    ensures r.Some? ==>
      var found := searchPage(HistorySearchUrl(CleanQuery(query)));
      && found.Some? && Present(found.value)
      && var url := CompleteLink(HistoryBase, found.value.value);
         && (StartsWith(found.value.value, "http") ==> url == found.value.value)
         && (!StartsWith(found.value.value, "http") ==> url == HistoryBase + found.value.value)
         && productPage(url).Some?
         && Some(r.value.lowest) == Amount(productPage(url).value, LowestLabel)
         && Some(r.value.average) == Amount(productPage(url).value, AverageLabel)
  {
    var cleanQuery := CleanQuery(query);
    var found := searchPage(HistorySearchUrl(cleanQuery));
    if found.None? || !Present(found.value) then None
    else
      var fullUrl := CompleteLink(HistoryBase, found.value.value);
      var textContent := productPage(fullUrl);
      if textContent.None? then None
      else
        var low := Amount(textContent.value, LowestLabel);
        var avg := Amount(textContent.value, AverageLabel);
        if low.None? || avg.None? then None else Some(Stats(low.value, avg.value))
  }

  /** Both fields of a record are never negative, and a field whose label does not match is 0. */
  lemma GetHistoryFields(query: string, searchPage: string -> Option<Option<string>>,
                         productPage: string -> Option<string>)
    ensures var r := GetHistory(query, searchPage, productPage);
            r.Some? ==> r.value.lowest >= 0 && r.value.average >= 0
    ensures var r := GetHistory(query, searchPage, productPage);
            var found := searchPage(HistorySearchUrl(CleanQuery(query)));
            r.Some? ==>
              var text := productPage(CompleteLink(HistoryBase, found.value.value)).value;
              && ((forall m, n :: !MatchAt(text, LowestLabel, m, n)) ==> r.value.lowest == 0)
              && ((forall m, n :: !MatchAt(text, AverageLabel, m, n)) ==> r.value.average == 0)
  {
    var r := GetHistory(query, searchPage, productPage);
    if r.Some? {
      var found := searchPage(HistorySearchUrl(CleanQuery(query)));
      var text := productPage(CompleteLink(HistoryBase, found.value.value)).value;
      AmountSpec(text, LowestLabel);
      AmountSpec(text, AverageLabel);
    }
  }

  /** A product page that shows no `₹` amount yields a record with both fields 0. */
  lemma GetHistoryBothZero(query: string, searchPage: string -> Option<Option<string>>,
                           productPage: string -> Option<string>)
    requires var found := searchPage(HistorySearchUrl(CleanQuery(query)));
             && found.Some? && Present(found.value)
             && var page := productPage(CompleteLink(HistoryBase, found.value.value));
                page.Some? && Rupee !in page.value
    ensures GetHistory(query, searchPage, productPage) == Some(Stats(0, 0))
  {
    var found := searchPage(HistorySearchUrl(CleanQuery(query)));
    var text := productPage(CompleteLink(HistoryBase, found.value.value)).value;
    AmountWithoutRupee(text, LowestLabel);
    AmountWithoutRupee(text, AverageLabel);
  }
}
