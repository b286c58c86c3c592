/**
  The browser side of the service: `scanLink` posts the pasted link to the backend
  and renders the reply in the result box: a verdict header whose colour and icon
  follow the verdict text, an optional price-history block with the record-low
  rule, and an optional market section with one row per competitor.

  The DOM is modelled by the fields of `ScanPage`; the rendered HTML by the
  `Content` it shows. The backend call is a function from the link posted to the
  decoded JSON reply, `None` when the request or the decoding failed.
*/
module Client {
  import opened Wrappers
  import opened PyStr

  const Green := "#3fb950"
  const Orange := "#d29922"
  const Red := "#f85149"
  const RecordColor := "#ffeb3b"
  const SafeIcon := "\U{2705}"
  const WarnIcon := "\U{26A0}\U{FE0F}"
  const SafeClass := "safe"
  const ScamClass := "scam"
  const LowestText := "Lowest Ever:"
  const RecordText := "\U{1F525} NEW RECORD LOW:"
  const PlainStyle := "color: #28a745;"
  const DealStyle := "color: #ffc107; font-weight: bold; text-decoration: underline;"
  const EmptyAlert := "Please paste a link first!"
  const IdleButton := "Check Trust"
  const BusyButton := "Scanning..."

  /** The `history` object of a reply. */
  datatype HistoryData = HistoryData(lowest: int, average: int)

  /** One entry of the `competitors` list of a reply. */
  datatype Competitor = Competitor(site: string, price: int, link: string)

  /** The decoded JSON reply; each field is `None` when the reply does not carry it. */
  datatype Reply = Reply(verdict: Option<string>, reason: Option<string>, currentPrice: Option<int>,
                         history: Option<HistoryData>, competitors: Option<seq<Competitor>>)

  /** `data.verdict && data.verdict.includes(word)`. */
  predicate Says(verdict: Option<string>, word: string) {
    verdict.Some? && Contains(verdict.value, word)
  }

  // ---------------------------------------------------------------------------
  // Verdict header
  // ---------------------------------------------------------------------------

  /** The header colour: green by default, orange for a suspicious verdict, red for a high-risk one, which wins. */
  function VerdictColor(verdict: Option<string>): (c: string)
    ensures c == Red <==> Says(verdict, "HIGH RISK")
    ensures c == Orange <==> Says(verdict, "SUSPICIOUS") && !Says(verdict, "HIGH RISK")
    ensures c == Green <==> !Says(verdict, "SUSPICIOUS") && !Says(verdict, "HIGH RISK")
  {
    var color := if Says(verdict, "SUSPICIOUS") then Orange else Green;
    if Says(verdict, "HIGH RISK") then Red else color
  }

  /** The header icon: the check mark exactly for a verdict that says `SAFE`, the warning sign otherwise. */
  function VerdictIcon(verdict: Option<string>): (icon: string)
    ensures icon == SafeIcon <==> Says(verdict, "SAFE")
    ensures icon != SafeIcon ==> icon == WarnIcon
  {
    if Says(verdict, "SAFE") then SafeIcon else WarnIcon
  }

  /** The class of the result box: `safe` exactly for a verdict that says `SAFE`, `scam` otherwise. */
  function BoxClass(verdict: Option<string>): (cls: string)
    ensures cls == SafeClass <==> Says(verdict, "SAFE")
    ensures cls != SafeClass ==> cls == ScamClass
  {
    if Says(verdict, "SAFE") then SafeClass else ScamClass
  }

  /** The icon and the class always agree: the check mark comes with `safe`, the warning sign with `scam`. */
  lemma IconAgreesWithClass(verdict: Option<string>)
    ensures VerdictIcon(verdict) == SafeIcon <==> BoxClass(verdict) == SafeClass
    ensures VerdictIcon(verdict) == WarnIcon <==> BoxClass(verdict) == ScamClass
  {
    assert SafeIcon != WarnIcon by {
      assert |SafeIcon| != |WarnIcon|;
    }
  }

  /** `data.current_price || 0`: the reply's current price, 0 when it has none. */
  function CurrentPrice(reply: Reply): (p: int)
    ensures reply.currentPrice.Some? ==> p == reply.currentPrice.value
    ensures reply.currentPrice.None? ==> p == 0
  {
    if reply.currentPrice.Some? && reply.currentPrice.value != 0 then reply.currentPrice.value else 0
  }

  // ---------------------------------------------------------------------------
  // Price history
  // ---------------------------------------------------------------------------

  /** What the history block shows: its label, the colour of the price, the lowest price and the average. */
  datatype HistoryView = HistoryView(caption: string, priceColor: string, lowest: int, average: int)

  /**
    The history block: shown only when the reply has a history with a lowest price
    other than 0. A current price above 0 and below the historical lowest is a new
    record low and is shown in its place; otherwise the historical lowest is shown.
  */
  function HistoryShown(history: Option<HistoryData>, currentPrice: int): (v: Option<HistoryView>)
    ensures v.Some? <==> history.Some? && history.value.lowest != 0
    ensures v.Some? ==> v.value.average == history.value.average && v.value.lowest <= history.value.lowest
    ensures v.Some? ==>
      (v.value.caption == RecordText <==> 0 < currentPrice < history.value.lowest)
    ensures v.Some? && 0 < currentPrice < history.value.lowest ==>
      v.value.lowest == currentPrice && v.value.priceColor == RecordColor
    ensures v.Some? && !(0 < currentPrice < history.value.lowest) ==>
      v.value == HistoryView(LowestText, Green, history.value.lowest, history.value.average)
    ensures v.Some? && currentPrice > 0 ==>
      v.value.lowest == if currentPrice < history.value.lowest then currentPrice else history.value.lowest
  {
    if history.Some? && history.value.lowest != 0 then
      assert RecordText != LowestText by {
        assert RecordText[0] != LowestText[0];
      }
      var h := history.value;
      if 0 < currentPrice < h.lowest then Some(HistoryView(RecordText, RecordColor, currentPrice, h.average))
      else Some(HistoryView(LowestText, Green, h.lowest, h.average))
    else None
  }

  /** The history block as the page script builds it, overwriting the label, colour and price of a record low. */
  method HistoryBlock(history: Option<HistoryData>, currentPrice: int) returns (view: Option<HistoryView>)
    ensures view == HistoryShown(history, currentPrice)
  {
    view := None;
    if history.Some? && history.value.lowest != 0 {
      var lowest := history.value.lowest;
      var caption := LowestText;
      var priceColor := Green;
      if currentPrice > 0 && currentPrice < lowest {
        lowest := currentPrice;
        caption := RecordText;
        priceColor := RecordColor;
      }
      view := Some(HistoryView(caption, priceColor, lowest, history.value.average));
    }
  }

  // ---------------------------------------------------------------------------
  // Market scanner
  // ---------------------------------------------------------------------------

  /** A competitor is a better deal when there is a current price and it is cheaper. */
  predicate IsDeal(currentPrice: int, price: int) {
    currentPrice > 0 && price < currentPrice
  }

  /** One row of the market section: the competitor's site, price and link, and the style of its price. */
  datatype Row = Row(site: string, price: int, link: string, style: string)

  /** The row of a competitor: highlighted exactly when it is a better deal. */
  function RowOf(comp: Competitor, currentPrice: int): (r: Row)
    ensures r.site == comp.site && r.price == comp.price && r.link == comp.link
    ensures r.style == DealStyle <==> IsDeal(currentPrice, comp.price)
    ensures r.style != DealStyle ==> r.style == PlainStyle
  {
    Row(comp.site, comp.price, comp.link, if IsDeal(currentPrice, comp.price) then DealStyle else PlainStyle)
  }

  /**
    The market section: present only for a non-empty competitor list, with one row
    per competitor in list order, each highlighted exactly when it is cheaper than
    the current price.
  */
  function MarketSection(competitors: Option<seq<Competitor>>, currentPrice: int): (s: Option<seq<Row>>)
    ensures s.Some? <==> competitors.Some? && |competitors.value| > 0
    ensures s.Some? ==> |s.value| == |competitors.value|
    ensures s.Some? ==> forall i :: 0 <= i < |s.value| ==> s.value[i] == RowOf(competitors.value[i], currentPrice)
  {
    if competitors.Some? && |competitors.value| > 0 then
      Some(seq(|competitors.value|, i requires 0 <= i < |competitors.value| => RowOf(competitors.value[i], currentPrice)))
    else None
  }

  /** The market section as the page script builds it, appending one row per competitor. */
  method MarketRows(competitors: Option<seq<Competitor>>, currentPrice: int) returns (section: Option<seq<Row>>)
    ensures section == MarketSection(competitors, currentPrice)
  {
    section := None;
    if competitors.Some? && |competitors.value| > 0 {
      var comps := competitors.value;
      var rows: seq<Row> := [];
      for i := 0 to |comps|
        invariant |rows| == i
        invariant forall k :: 0 <= k < i ==> rows[k] == RowOf(comps[k], currentPrice)
      {
        var comp := comps[i];
        var dealStyle := PlainStyle;
        if currentPrice > 0 && comp.price < currentPrice {
          dealStyle := DealStyle;
        }
        rows := rows + [Row(comp.site, comp.price, comp.link, dealStyle)];
      }
      assert rows == MarketSection(competitors, currentPrice).value;
      section := Some(rows);
    }
  }

  // ---------------------------------------------------------------------------
  // The page
  // ---------------------------------------------------------------------------

  /** What the result box shows. */
  datatype Content =
    | Blank
    | Connecting
    | Verdict(color: string, icon: string, verdict: Option<string>, reason: Option<string>,
              history: Option<HistoryView>, market: Option<seq<Row>>)
    | SystemError

  /** The result box content for a reply. */
  function Rendered(reply: Reply): Content {
    var currentPrice := CurrentPrice(reply);
    Verdict(VerdictColor(reply.verdict), VerdictIcon(reply.verdict), reply.verdict, reply.reason,
            HistoryShown(reply.history, currentPrice), MarketSection(reply.competitors, currentPrice))
  }

  /** The parts of the page `scanLink` reads and writes, and the alerts raised and requests sent so far. */
  class ScanPage {
    var boxShown: bool
    var boxClass: string
    var content: Content
    var buttonDisabled: bool
    var buttonText: string
    var alerts: seq<string>
    var sent: seq<string>

    /** The page as loaded: the result box hidden and the button ready. */
    constructor ()
      ensures !boxShown && boxClass == "" && content == Blank
      ensures !buttonDisabled && buttonText == IdleButton
      ensures alerts == [] && sent == []
    {
      boxShown := false;
      boxClass := "";
      content := Blank;
      buttonDisabled := false;
      buttonText := IdleButton;
      alerts := [];
      sent := [];
    }

    /**
      The input check and the loading state: an empty link raises an alert and
      changes nothing else; any other shows the connecting message and disables
      the button.
    */
    method StartScan(link: string) returns (proceed: bool)
      modifies this
      ensures proceed <==> link != ""
      ensures sent == old(sent)
      ensures !proceed ==>
        && alerts == old(alerts) + [EmptyAlert]
        && boxShown == old(boxShown) && boxClass == old(boxClass) && content == old(content)
        && buttonDisabled == old(buttonDisabled) && buttonText == old(buttonText)
      ensures proceed ==>
        && alerts == old(alerts)
        && boxShown && boxClass == "" && content == Connecting
        && buttonDisabled && buttonText == BusyButton
    {
      if link == "" {
        alerts := alerts + [EmptyAlert];
        return false;
      }
      boxShown := true;
      boxClass := "";
      content := Connecting;
      buttonDisabled := true;
      buttonText := BusyButton;
      return true;
    }

    /**
      The reply handling: the button is ready again, and the box shows the verdict
      header, the history block and the market section of the reply, or the system
      error when there is no reply.
    */
    method FinishScan(reply: Option<Reply>)
      modifies this
      ensures !buttonDisabled && buttonText == IdleButton
      ensures reply.None? ==> boxClass == ScamClass && content == SystemError
      ensures reply.Some? ==> boxClass == BoxClass(reply.value.verdict) && content == Rendered(reply.value)
      ensures boxShown == old(boxShown) && alerts == old(alerts) && sent == old(sent)
    {
      if reply.None? {
        boxClass := ScamClass;
        content := SystemError;
        buttonDisabled := false;
        buttonText := IdleButton;
        return;
      }
      var data := reply.value;
      buttonDisabled := false;
      buttonText := IdleButton;
      var color := VerdictColor(data.verdict);
      var icon := VerdictIcon(data.verdict);
      var currentPrice := CurrentPrice(data);
      var historyView := HistoryBlock(data.history, currentPrice);
      var market := MarketRows(data.competitors, currentPrice);
      boxClass := BoxClass(data.verdict);
      content := Verdict(color, icon, data.verdict, data.reason, historyView, market);
    }

    /**
      `scanLink`: an empty link only raises the alert and sends nothing; any other is
      sent once, and the page ends with the button ready and the box showing what
      the reply to that link gives.
    */
    method ScanLink(link: string, server: string -> Option<Reply>)
      modifies this
      ensures link == "" ==>
        && alerts == old(alerts) + [EmptyAlert] && sent == old(sent)
        && boxShown == old(boxShown) && boxClass == old(boxClass) && content == old(content)
        && buttonDisabled == old(buttonDisabled) && buttonText == old(buttonText)
      ensures link != "" ==>
        && alerts == old(alerts) && sent == old(sent) + [link]
        && boxShown && !buttonDisabled && buttonText == IdleButton
        && (server(link).None? ==> boxClass == ScamClass && content == SystemError)
        && (server(link).Some? ==>
              boxClass == BoxClass(server(link).value.verdict) && content == Rendered(server(link).value))
    {
      var proceed := StartScan(link);
      if !proceed {
        return;
      }
      sent := sent + [link];
      var reply := server(link);
      FinishScan(reply);
    }
  }
}
