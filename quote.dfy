/** `fetchLatestPrice` without the network: how each quote provider's JSON
    response is turned into a price or into nothing. The HTTP request and
    `resp.json()` are outside the model; their outcome is the `response`
    parameter (None when the request or the body parse failed). */
module Quote {
  import opened Wrappers
  import NumberScan

  /** A parsed JSON value. Objects map member names to values. */
  datatype Json =
    | JNull
    | JBool(b: bool)
    | JNum(n: real)
    | JStr(s: string)
    | JArr(items: seq<Json>)
    | JObj(members: map<string, Json>)

  /** The providers `REALTIME_PROVIDER` can name; any other name selects no
      provider and every fetch yields null. */
  datatype Provider = AlphaVantage | Finnhub | AlphaVantageMcp | Unrecognised

  /** The provider the dashboard is configured with. */
  const RealtimeProvider: Provider := AlphaVantageMcp

  /** The pause between two quote requests of one refresh, in milliseconds:
      the single-symbol Alpha Vantage endpoint is rate-limited harder than
      the others. */
  function PacingMs(p: Provider): (ms: nat)
    ensures p == AlphaVantage ==> ms == 12000
    ensures p != AlphaVantage ==> ms == 1000
  {
    if p == AlphaVantage then 12000 else 1000
  }

  /** JavaScript truthiness of a JSON value. */
  predicate Truthy(j: Json) {
    match j
    case JNull => false
    case JBool(b) => b
    case JNum(n) => n != 0.0
    case JStr(s) => s != ""
    case JArr(_) => true
    case JObj(_) => true
  }

  /** Optional chaining `j?.[key]`: the member when `j` is an object that
      has it, otherwise undefined. */
  function Member(j: Option<Json>, key: string): (r: Option<Json>)
    ensures r.Some? <==> j.Some? && j.value.JObj? && key in j.value.members
  {
    if j.Some? && j.value.JObj? && key in j.value.members then Some(j.value.members[key]) else None
  }

  /** Optional chaining `j?.[0]` on an array. */
  function First(j: Option<Json>): (r: Option<Json>)
    ensures r.Some? <==> j.Some? && j.value.JArr? && |j.value.items| > 0
  {
    if j.Some? && j.value.JArr? && |j.value.items| > 0 then Some(j.value.items[0]) else None
  }

  /** `parseFloat(v)` of a JSON value, None standing for NaN: a number is
      itself and a string is parsed. */
  function NumberOf(j: Json): (r: Option<real>)
    ensures j.JNum? ==> r == Some(j.n)
    ensures j.JStr? ==> r == NumberScan.ParseFloat(j.s)
    ensures !j.JNum? && !j.JStr? ==> r.None?
  {
    match j
    case JNum(n) => Some(n)
    case JStr(s) => NumberScan.ParseFloat(s)
    case _ => None
  }

  /** `v ? parseFloat(v) : null`: used by the two single-symbol providers. */
  function IfTruthy(v: Option<Json>): (r: Option<real>)
    ensures r.Some? ==> v.Some? && Truthy(v.value) && r == NumberOf(v.value)
    ensures v.Some? && Truthy(v.value) ==> r == NumberOf(v.value)
  {
    if v.Some? && Truthy(v.value) then NumberOf(v.value) else None
  }

  /** `v !== undefined ? parseFloat(v) : null`: used by the MCP provider. */
  function IfDefined(v: Option<Json>): (r: Option<real>)
    ensures v.None? ==> r.None?
    ensures v.Some? ==> r == NumberOf(v.value)
  {
    if v.Some? then NumberOf(v.value) else None
  }

  /** `json?.result?.content?.[0]`: where the MCP provider puts its
      answer. */
  function McpContent(json: Json): (c: Option<Json>)
    ensures c.Some? <==> && Member(Member(Some(json), "result"), "content").Some?
                         && Member(Member(Some(json), "result"), "content").value.JArr?
                         && |Member(Member(Some(json), "result"), "content").value.items| > 0
  {
    First(Member(Member(Some(json), "result"), "content"))
  }

  /** The content is structured JSON: `content.type === 'json' &&
      content.json`. */
  predicate IsJsonContent(c: Option<Json>) {
    Member(c, "type") == Some(JStr("json")) && Member(c, "json").Some? && Truthy(Member(c, "json").value)
  }

  /** The content is text: `content.type === 'text' && typeof content.text
      === 'string'`. */
  predicate IsTextContent(c: Option<Json>) {
    Member(c, "type") == Some(JStr("text")) && Member(c, "text").Some? && Member(c, "text").value.JStr?
  }

  /** The MCP provider's JSON-RPC 2.0 response: the price sits in
      `result.content[0]`, either as structured `json`, or as `text` that
      is itself JSON, or, when that text does not parse, as the first number
      in the text. `parseJson` is `JSON.parse`, None when it throws. */
  function McpPrice(json: Json, ticker: string, parseJson: string -> Option<Json>): (r: Option<real>)
    ensures var c := McpContent(json);
      && (c.None? || !Truthy(c.value) ==> r.None?)
      && (c.Some? && Truthy(c.value) && IsJsonContent(c) ==>
            r == IfDefined(Member(Member(Member(c, "json"), ticker), "price")))
      && (c.Some? && Truthy(c.value) && !IsJsonContent(c) && IsTextContent(c) ==>
            var text := Member(c, "text").value.s;
            && (parseJson(text).Some? ==> r == IfDefined(Member(Member(parseJson(text), ticker), "price")))
            && (parseJson(text).None? ==> r == NumberScan.FirstNumberIn(text)))
      && (!IsJsonContent(c) && !IsTextContent(c) ==> r.None?)
  {
    var content := McpContent(json);
    if content.None? || !Truthy(content.value) then None
    else if IsJsonContent(content) then
      IfDefined(Member(Member(Member(content, "json"), ticker), "price"))
    else if IsTextContent(content) then
      var text := Member(content, "text").value.s;
      match parseJson(text)
      case Some(parsed) => IfDefined(Member(Member(Some(parsed), ticker), "price"))
      case None => NumberScan.FirstNumberIn(text)
    else None
  }

  /** `fetchLatestPrice(ticker)`: the price the configured provider reports,
      or None (null) on any failure. A request or body-parse failure
      (`response` None) and an unrecognised provider give None. */
  function FetchLatestPrice(p: Provider, ticker: string, response: Option<Json>,
                            parseJson: string -> Option<Json>): (r: Option<real>)
    ensures response.None? || p == Unrecognised ==> r.None?
    ensures p == AlphaVantage ==> r == IfTruthy(Member(Member(response, "Global Quote"), "05. price"))
    ensures p == Finnhub ==> r == IfTruthy(Member(response, "c"))
    ensures p == AlphaVantageMcp && response.Some? ==> r == McpPrice(response.value, ticker, parseJson)
  {
    if response.None? then None
    else
      match p
      case AlphaVantage => IfTruthy(Member(Member(response, "Global Quote"), "05. price"))
      case Finnhub => IfTruthy(Member(response, "c"))
      case AlphaVantageMcp => McpPrice(response.value, ticker, parseJson)
      case Unrecognised => None
  }

  /** The single-symbol providers treat a numeric price of 0 as no price;
      the MCP provider reports it. */
  lemma ZeroPriceByProvider(ticker: string, parseJson: string -> Option<Json>)
    ensures FetchLatestPrice(AlphaVantage, ticker,
              Some(JObj(map["Global Quote" := JObj(map["05. price" := JNum(0.0)])])), parseJson) == None
    ensures FetchLatestPrice(Finnhub, ticker, Some(JObj(map["c" := JNum(0.0)])), parseJson) == None
    ensures FetchLatestPrice(AlphaVantageMcp, ticker,
              Some(McpJsonResponse(ticker, JNum(0.0))), parseJson) == Some(0.0)
  {
    var resp := McpJsonResponse(ticker, JNum(0.0));
    assert First(Member(Member(Some(resp), "result"), "content")) == Some(McpJsonContent(ticker, JNum(0.0)));
  }

  /** `{"type": "json", "json": {ticker: {"price": price}}}` */
  function McpJsonContent(ticker: string, price: Json): Json {
    JObj(map["type" := JStr("json"), "json" := JObj(map[ticker := JObj(map["price" := price])])])
  }

  /** `{"jsonrpc": "2.0", "id": 1, "result": {"content": [content]}}` as the
      MCP provider answers. */
  function McpJsonResponse(ticker: string, price: Json): Json {
    JObj(map["jsonrpc" := JStr("2.0"), "id" := JNum(1.0),
             "result" := JObj(map["content" := JArr([McpJsonContent(ticker, price)])])])
  }

  /** When the MCP answer's first content item is text that is not JSON,
      the price is the leftmost, longest `[0-9]+\.?[0-9]*` in it, and there
      is none exactly when the text has no digit, whatever else the
      response carries. */
  lemma McpTextFallback(ticker: string, response: Json, text: string, parseJson: string -> Option<Json>)
    requires McpContent(response).Some? && McpContent(response).value.JObj?
    requires var m := McpContent(response).value.members;
      && "type" in m && m["type"] == JStr("text")
      && "text" in m && m["text"] == JStr(text)
    requires parseJson(text).None?
    ensures var r := FetchLatestPrice(AlphaVantageMcp, ticker, Some(response), parseJson);
      && (r.None? <==> forall k :: 0 <= k < |text| ==> !NumberScan.IsDigit(text[k]))
      && (r.Some? ==> r.value >= 0.0 && exists a: nat, b: nat ::
            NumberScan.IsLeftmostLongest(text, a, b) && r.value == NumberScan.TokenValue(text[a..b]))
  {
    var c := McpContent(response);
    assert Member(c, "type") == Some(JStr("text"));
    assert Member(c, "text") == Some(JStr(text));
    assert !IsJsonContent(c) && IsTextContent(c);
  }
}
