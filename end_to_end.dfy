/**
  The backend and the browser together: what the page shows for the replies the
  `/scan` route of the backend gives.
*/
module EndToEnd {
  import opened Wrappers
  import opened PyStr
  import App
  import Client

  /** A field of a JSON object as the browser reads it: `undefined` when absent. */
  function Field(fields: map<string, string>, key: string): Option<string> {
    if key in fields then Some(fields[key]) else None
  }

  /** The reply as the browser decodes it. The backend's objects carry no price, history or competitors. */
  function Decoded(reply: App.HttpReply): Client.Reply {
    Client.Reply(Field(reply.fields, "verdict"), Field(reply.fields, "reason"), None, None, None)
  }

  /** No verdict of the backend holds an `S` or an `H`, so none says `SAFE`, `SUSPICIOUS` or `HIGH RISK`. */
  lemma VerdictSaysNothing(verdict: string, word: string)
    requires verdict in {App.BlockedVerdict, App.OnlineVerdict, App.ErrorVerdict}
    requires word in {"SAFE", "SUSPICIOUS", "HIGH RISK"}
    ensures !Contains(verdict, word)
  {
    assert 'S' !in verdict && 'H' !in verdict;
    if Contains(verdict, word) {
      ContainsFirstChar(verdict, word);
    }
  }

  /**
    Whatever the request and the listing, the page shows the backend's reply in the
    default green with the warning sign and the `scam` class, and with neither a
    history block nor a market section.
  */
  lemma BackendRepliesShowAsWarnings(body: Option<map<string, string>>, fetch: string -> App.Fetch)
    ensures var r := Decoded(App.ScanEndpoint(body, fetch));
            && Client.BoxClass(r.verdict) == Client.ScamClass
            && Client.VerdictIcon(r.verdict) == Client.WarnIcon
            && Client.VerdictColor(r.verdict) == Client.Green
            && Client.Rendered(r).history.None? && Client.Rendered(r).market.None?
  {
    var reply := App.ScanEndpoint(body, fetch);
    var v := Field(reply.fields, "verdict");
    if v.Some? {
      assert v.value in {App.BlockedVerdict, App.OnlineVerdict, App.ErrorVerdict};
      VerdictSaysNothing(v.value, "SAFE");
      VerdictSaysNothing(v.value, "SUSPICIOUS");
      VerdictSaysNothing(v.value, "HIGH RISK");
    }
  }
}
