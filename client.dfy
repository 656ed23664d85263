/** The signed-request client of the futures exchange (`BinanceClient`):
    the order-parameter builder, the HMAC signature over the form-encoded
    parameters, and the single HTTP call whose every failure becomes `None`. */
module Client {
  import opened Values
  import opened Dict
  import opened FormEncoding

  /** The credentials and endpoint, read once from the environment. */
  datatype Config = Config(apiKey: string, secretKey: string, baseUrl: string)

  /** Library code the client calls and whose internals are not modelled:
      HMAC-SHA256 hex digest over (key, message), and Python's `str` of a
      float. */
  datatype Primitives = Primitives(
    hmacSha256Hex: (string, string) -> string,
    floatText: real -> string)

  datatype Verb = GET | POST

  /** One HTTP call as the client issues it; the parameters travel as the
      URL query string for both verbs. */
  datatype Request = Request(
    verb: Verb,
    url: string,
    headers: seq<(string, string)>,
    query: seq<Entry>)

  datatype Body = JsonBody(json: Json) | NotJson(text: string)

  /** What the network does with a request: a response with a status code
      and a body, or a failure before any response (DNS, refused, reset). */
  datatype Outcome = Answered(status: int, body: Body) | Unreachable(cause: string)

  const ORDER_ENDPOINT := "/fapi/v1/order"
  const API_KEY_HEADER := "X-MBX-APIKEY"
  const TIMESTAMP := "timestamp"
  const SIGNATURE := "signature"

  /** The headers built once by the client's constructor. */
  function Headers(cfg: Config): seq<(string, string)> {
    [(API_KEY_HEADER, cfg.apiKey)]
  }

  /** `_get_signature`: the hex HMAC-SHA256 of the form-encoded parameters
      under the secret key. */
  function Signature(prims: Primitives, secret: string, m: seq<Entry>): string {
    prims.hmacSha256Hex(secret, Encode(prims.floatText, m))
  }

  /** The parameters after `send_signed_request` has stamped and signed them:
      `timestamp` is assigned first, then `signature` is assigned the
      signature of the dictionary as it stands at that moment. */
  function SignedParams(prims: Primitives, secret: string, m: seq<Entry>, timestamp: int): seq<Entry> {
    var stamped := Assign(m, TIMESTAMP, Int(timestamp));
    Assign(stamped, SIGNATURE, Str(Signature(prims, secret, stamped)))
  }

  /** Stamping and signing touches only `timestamp` and `signature`: every
      other key keeps its value and its place, a missing `timestamp` and
      then a missing `signature` are appended, and the signature is the
      HMAC, under the secret alone, of the encoding of the dictionary as it
      stood once the timestamp was in. */
  lemma SignedParamsSpec(prims: Primitives, secret: string, m: seq<Entry>, timestamp: int)
    ensures Keys(SignedParams(prims, secret, m, timestamp))
            == Keys(m)
               + (if TIMESTAMP in Keys(m) then [] else [TIMESTAMP])
               + (if SIGNATURE in Keys(m) then [] else [SIGNATURE])
    ensures forall k :: k != TIMESTAMP && k != SIGNATURE ==>
              Lookup(SignedParams(prims, secret, m, timestamp), k) == Lookup(m, k)
    ensures Lookup(SignedParams(prims, secret, m, timestamp), TIMESTAMP) == Some(Int(timestamp))
    ensures Lookup(SignedParams(prims, secret, m, timestamp), SIGNATURE)
            == Some(Str(prims.hmacSha256Hex(secret, Encode(prims.floatText, Assign(m, TIMESTAMP, Int(timestamp))))))
    ensures Distinct(Keys(m)) ==> Distinct(Keys(SignedParams(prims, secret, m, timestamp)))
  {
    SignedKeys(prims, secret, m, timestamp);
    forall k | k != TIMESTAMP && k != SIGNATURE
      ensures Lookup(SignedParams(prims, secret, m, timestamp), k) == Lookup(m, k)
    {
      SignedLookup(prims, secret, m, timestamp, k);
    }
    var stamped := Assign(m, TIMESTAMP, Int(timestamp));
    var sig := Str(Signature(prims, secret, stamped));
    AssignLookup(stamped, SIGNATURE, sig, TIMESTAMP);
    AssignLookup(m, TIMESTAMP, Int(timestamp), TIMESTAMP);
    AssignLookup(stamped, SIGNATURE, sig, SIGNATURE);
  }

  /** The keys after stamping and signing: the caller's, then whichever of
      `timestamp` and `signature` were missing, in that order. */
  lemma SignedKeys(prims: Primitives, secret: string, m: seq<Entry>, timestamp: int)
    ensures Keys(SignedParams(prims, secret, m, timestamp))
            == Keys(m)
               + (if TIMESTAMP in Keys(m) then [] else [TIMESTAMP])
               + (if SIGNATURE in Keys(m) then [] else [SIGNATURE])
    ensures Distinct(Keys(m)) ==> Distinct(Keys(SignedParams(prims, secret, m, timestamp)))
  {
    var stamped := Assign(m, TIMESTAMP, Int(timestamp));
    var sig := Str(Signature(prims, secret, stamped));
    AssignKeys(m, TIMESTAMP, Int(timestamp));
    AssignKeys(stamped, SIGNATURE, sig);
    assert SIGNATURE in Keys(stamped) <==> SIGNATURE in Keys(m);
    if Distinct(Keys(m)) {
      AssignDistinct(m, TIMESTAMP, Int(timestamp));
      AssignDistinct(stamped, SIGNATURE, sig);
    }
  }

  /** When the caller's dictionary holds no signature yet, the signature is
      appended last and covers exactly the stamped dictionary before it: the
      transmitted query string is the signed string followed by
      `&signature=<hex>`, and the signed dictionary has no `signature`. */
  lemma SignatureCoversPrefix(prims: Primitives, secret: string, m: seq<Entry>, timestamp: int)
    requires SIGNATURE !in Keys(m)
    ensures SIGNATURE !in Keys(Assign(m, TIMESTAMP, Int(timestamp)))
    ensures SignedParams(prims, secret, m, timestamp)
            == Assign(m, TIMESTAMP, Int(timestamp)) + [(SIGNATURE, Str(Signature(prims, secret, Assign(m, TIMESTAMP, Int(timestamp)))))]
    ensures Encode(prims.floatText, SignedParams(prims, secret, m, timestamp))
            == Encode(prims.floatText, Assign(m, TIMESTAMP, Int(timestamp))) + "&" + SIGNATURE + "="
               + prims.hmacSha256Hex(secret, Encode(prims.floatText, Assign(m, TIMESTAMP, Int(timestamp))))
  {
    var stamped := Assign(m, TIMESTAMP, Int(timestamp));
    var sig := (SIGNATURE, Str(Signature(prims, secret, stamped)));
    AssignKeys(m, TIMESTAMP, Int(timestamp));
    assert stamped != [];
    AssignNewKey(stamped, SIGNATURE, sig.1);
    EncodeSnoc(prims.floatText, stamped, sig);
  }

  /** A dictionary with neither key gets `timestamp` and then `signature`
      appended, and nothing else changes. */
  lemma SignedFreshParams(prims: Primitives, secret: string, m: seq<Entry>, timestamp: int)
    requires TIMESTAMP !in Keys(m) && SIGNATURE !in Keys(m)
    ensures SignedParams(prims, secret, m, timestamp)
            == m + [(TIMESTAMP, Int(timestamp)),
                    (SIGNATURE, Str(prims.hmacSha256Hex(secret, Encode(prims.floatText, m + [(TIMESTAMP, Int(timestamp))]))))]
  {
    AssignNewKey(m, TIMESTAMP, Int(timestamp));
    SignatureCoversPrefix(prims, secret, m, timestamp);
  }

  /** `params=None`: the request carries only the timestamp and the
      signature of `timestamp=<ms>`. */
  lemma SignedNoParams(prims: Primitives, secret: string, timestamp: int)
    ensures SignedParams(prims, secret, [], timestamp)
            == [(TIMESTAMP, Int(timestamp)),
                (SIGNATURE, Str(prims.hmacSha256Hex(secret, TIMESTAMP + "=" + IntText(timestamp))))]
  {
    SignedFreshParams(prims, secret, [], timestamp);
    assert [] + [(TIMESTAMP, Int(timestamp))] == [(TIMESTAMP, Int(timestamp))];
  }

  /** Sending the same dictionary a second time keeps its keys and their
      order, but the second signature is computed over a dictionary that
      still holds the first signature, so it does not cover the string that
      precedes `&signature=` in the second transmitted query. */
  lemma ResendSignsStaleSignature(prims: Primitives, secret: string, m: seq<Entry>, t1: int, t2: int)
    requires TIMESTAMP !in Keys(m) && SIGNATURE !in Keys(m)
    ensures var first := SignedParams(prims, secret, m, t1);
            var signed := Assign(first, TIMESTAMP, Int(t2));
      && signed == m + [(TIMESTAMP, Int(t2)), first[|first| - 1]]
      && SignedParams(prims, secret, first, t2)
         == m + [(TIMESTAMP, Int(t2)), (SIGNATURE, Str(prims.hmacSha256Hex(secret, Encode(prims.floatText, signed))))]
      && Encode(prims.floatText, signed) != Encode(prims.floatText, m + [(TIMESTAMP, Int(t2))])
  {
    var first := SignedParams(prims, secret, m, t1);
    SignedFreshParams(prims, secret, m, t1);
    var sig1 := first[|first| - 1];
    assert first == m + [(TIMESTAMP, Int(t1)), sig1];
    var signed := Assign(first, TIMESTAMP, Int(t2));
    RestampKeepsPlace(m, t1, t2, sig1);
    var sig2 := (SIGNATURE, Str(Signature(prims, secret, signed)));
    var stamped2 := m + [(TIMESTAMP, Int(t2))];
    assert Keys(stamped2) == Keys(m) + [TIMESTAMP];
    ResignKeepsPlace(stamped2, sig1, sig2);
    assert signed == stamped2 + [sig1];
    assert SignedParams(prims, secret, first, t2) == stamped2 + [sig2];
    EncodeSnoc(prims.floatText, stamped2, sig1);
    assert |Encode(prims.floatText, signed)| > |Encode(prims.floatText, stamped2)|;
  }

  /** Re-assigning the timestamp of a signed dictionary replaces it in place. */
  lemma RestampKeepsPlace(m: seq<Entry>, t1: int, t2: int, sig: Entry)
    requires TIMESTAMP !in Keys(m)
    ensures Assign(m + [(TIMESTAMP, Int(t1)), sig], TIMESTAMP, Int(t2)) == m + [(TIMESTAMP, Int(t2)), sig]
  {
    AssignReplace(m, [sig], TIMESTAMP, Int(t1), Int(t2));
    assert m + [(TIMESTAMP, Int(t1)), sig] == m + [(TIMESTAMP, Int(t1))] + [sig];
    assert m + [(TIMESTAMP, Int(t2))] + [sig] == m + [(TIMESTAMP, Int(t2)), sig];
  }

  /** Re-assigning the signature, the last key, replaces it in place. */
  lemma ResignKeepsPlace(m: seq<Entry>, old1: Entry, new1: Entry)
    requires old1.0 == SIGNATURE && new1.0 == SIGNATURE && SIGNATURE !in Keys(m)
    ensures Assign(m + [old1], SIGNATURE, new1.1) == m + [new1]
  {
    AssignReplace(m, [], SIGNATURE, old1.1, new1.1);
    assert m + [old1] + [] == m + [old1];
    assert m + [(SIGNATURE, new1.1)] + [] == m + [new1];
  }

  /** `raise_for_status()` then `response.json()`, with every exception
      caught: only a status outside 400..599 whose body parses gives a value,
      and a body that parses to JSON `null` gives Python's `None` like a
      failure does. */
  function ResponseOf(outcome: Outcome): (r: Option<Json>)
    ensures r.Some? <==>
            && outcome.Answered?
            && !(400 <= outcome.status < 600)
            && outcome.body.JsonBody?
            && outcome.body.json != JNull
    ensures r.Some? ==> r.value == outcome.body.json
  {
    match outcome
    case Unreachable(_) => None
    case Answered(status, body) =>
      if 400 <= status < 600 then None
      else
        match body
        case JsonBody(j) => if j.JNull? then None else Some(j)
        case NotJson(_) => None
  }

  /** The request `send_signed_request` issues for the given verb name,
      endpoint and (already signed) parameters. */
  function RequestFor(cfg: Config, verb: string, endpoint: string, query: seq<Entry>): Request {
    Request(if verb == "GET" then GET else POST, cfg.baseUrl + endpoint, Headers(cfg), query)
  }

  /** The dictionary `place_order` builds before sending it: the four
      mandatory fields in display order, then `price` and `timeInForce` only
      when the price is truthy. */
  function OrderParams(symbol: string, side: string, orderType: string, quantity: Value, price: Option<Value>): seq<Entry> {
    var base := [("symbol", Str(Upper(symbol))), ("side", Str(Upper(side))),
                 ("type", Str(Upper(orderType))), ("quantity", quantity)];
    if Truthy(price) then base + [("price", price.value), ("timeInForce", Str("GTC"))] else base
  }

  /** Symbol, side and type are upper-cased, the quantity passes through,
      and `price` with `timeInForce = GTC` are present, after the four
      mandatory keys, exactly when the price is truthy. */
  lemma OrderParamsShape(symbol: string, side: string, orderType: string, quantity: Value, price: Option<Value>)
    ensures Keys(OrderParams(symbol, side, orderType, quantity, price))
            == ["symbol", "side", "type", "quantity"] + (if Truthy(price) then ["price", "timeInForce"] else [])
    ensures Distinct(Keys(OrderParams(symbol, side, orderType, quantity, price)))
    ensures Lookup(OrderParams(symbol, side, orderType, quantity, price), "symbol") == Some(Str(Upper(symbol)))
    ensures Lookup(OrderParams(symbol, side, orderType, quantity, price), "side") == Some(Str(Upper(side)))
    ensures Lookup(OrderParams(symbol, side, orderType, quantity, price), "type") == Some(Str(Upper(orderType)))
    ensures Lookup(OrderParams(symbol, side, orderType, quantity, price), "quantity") == Some(quantity)
    ensures Lookup(OrderParams(symbol, side, orderType, quantity, price), "price")
            == if Truthy(price) then price else None
    ensures Lookup(OrderParams(symbol, side, orderType, quantity, price), "timeInForce")
            == if Truthy(price) then Some(Str("GTC")) else None
  {
    var (sy, si, ty) := (Str(Upper(symbol)), Str(Upper(side)), Str(Upper(orderType)));
    var base := [("symbol", sy), ("side", si), ("type", ty), ("quantity", quantity)];
    var r := OrderParams(symbol, side, orderType, quantity, price);
    DisplayValues(base, sy, si, ty, quantity);
    if Truthy(price) {
      assert r == base + [("price", price.value), ("timeInForce", Str("GTC"))];
      PricedKeys(base, price.value);
      PricedValues(base, price.value, sy, si, ty, quantity);
    } else {
      assert r == base;
    }
  }

  lemma DisplayValues(base: seq<Entry>, a: Value, b: Value, c: Value, d: Value)
    requires base == [("symbol", a), ("side", b), ("type", c), ("quantity", d)]
    ensures Keys(base) == ["symbol", "side", "type", "quantity"]
    ensures Distinct(Keys(base))
    ensures && Lookup(base, "symbol") == Some(a)
            && Lookup(base, "side") == Some(b)
            && Lookup(base, "type") == Some(c)
            && Lookup(base, "quantity") == Some(d)
            && Lookup(base, "price") == None
            && Lookup(base, "timeInForce") == None
  {
    assert Keys(base) == ["symbol", "side", "type", "quantity"];
    LookupEntry(base, "symbol", a);
    LookupEntry(base, "side", b);
    LookupEntry(base, "type", c);
    LookupEntry(base, "quantity", d);
    LookupSpec(base, "price");
    LookupSpec(base, "timeInForce");
  }

  /** The two conditional assignments append `price` and `timeInForce`. */
  lemma PricedDisplay(base: seq<Entry>, p: Value)
    requires Keys(base) == ["symbol", "side", "type", "quantity"]
    ensures Assign(Assign(base, "price", p), "timeInForce", Str("GTC"))
            == base + [("price", p), ("timeInForce", Str("GTC"))]
  {
    AssignNewKey(base, "price", p);
    assert Keys(base + [("price", p)]) == Keys(base) + ["price"];
    AssignNewKey(base + [("price", p)], "timeInForce", Str("GTC"));
  }

  lemma PricedKeys(base: seq<Entry>, p: Value)
    requires Keys(base) == ["symbol", "side", "type", "quantity"]
    ensures var r := base + [("price", p), ("timeInForce", Str("GTC"))];
      Keys(r) == ["symbol", "side", "type", "quantity", "price", "timeInForce"] && Distinct(Keys(r))
  {
    var r := base + [("price", p), ("timeInForce", Str("GTC"))];
    assert Keys(r) == Keys(base) + ["price", "timeInForce"];
  }

  lemma PricedValues(base: seq<Entry>, p: Value, a: Value, b: Value, c: Value, d: Value)
    requires base == [("symbol", a), ("side", b), ("type", c), ("quantity", d)]
    ensures var r := base + [("price", p), ("timeInForce", Str("GTC"))];
      && Lookup(r, "symbol") == Some(a)
      && Lookup(r, "side") == Some(b)
      && Lookup(r, "type") == Some(c)
      && Lookup(r, "quantity") == Some(d)
      && Lookup(r, "price") == Some(p)
      && Lookup(r, "timeInForce") == Some(Str("GTC"))
  {
    var r := base + [("price", p), ("timeInForce", Str("GTC"))];
    assert Keys(base) == ["symbol", "side", "type", "quantity"];
    PricedKeys(base, p);
    LookupEntry(r, "symbol", a);
    LookupEntry(r, "side", b);
    LookupEntry(r, "type", c);
    LookupEntry(r, "quantity", d);
    LookupEntry(r, "price", p);
    LookupEntry(r, "timeInForce", Str("GTC"));
  }

  /** The request `place_order` sends, stamped with the given clock reading. */
  function OrderRequest(cfg: Config, prims: Primitives, symbol: string, side: string, orderType: string,
                        quantity: Value, price: Option<Value>, timestamp: int): Request
  {
    RequestFor(cfg, "POST", ORDER_ENDPOINT,
               SignedParams(prims, cfg.secretKey, OrderParams(symbol, side, orderType, quantity, price), timestamp))
  }

  /** An order goes by POST to the order endpoint with the API-key header;
      its query is the order dictionary followed by `timestamp` and by
      `signature`, the HMAC of the encoding of everything before it. */
  lemma OrderRequestShape(cfg: Config, prims: Primitives, symbol: string, side: string, orderType: string,
                          quantity: Value, price: Option<Value>, timestamp: int)
    ensures var r := OrderRequest(cfg, prims, symbol, side, orderType, quantity, price, timestamp);
            var p := OrderParams(symbol, side, orderType, quantity, price);
      && r.verb == POST
      && r.url == cfg.baseUrl + ORDER_ENDPOINT
      && r.headers == [(API_KEY_HEADER, cfg.apiKey)]
      && r.query == p + [(TIMESTAMP, Int(timestamp)),
                         (SIGNATURE, Str(prims.hmacSha256Hex(cfg.secretKey, Encode(prims.floatText, p + [(TIMESTAMP, Int(timestamp))]))))]
      && Keys(r.query) == ["symbol", "side", "type", "quantity"]
                          + (if Truthy(price) then ["price", "timeInForce"] else [])
                          + [TIMESTAMP, SIGNATURE]
      && Distinct(Keys(r.query))
  {
    var p := OrderParams(symbol, side, orderType, quantity, price);
    OrderParamsShape(symbol, side, orderType, quantity, price);
    SignedFreshParams(prims, cfg.secretKey, p, timestamp);
    SignedParamsSpec(prims, cfg.secretKey, p, timestamp);
  }

  /** Signing leaves every key other than `timestamp` and `signature` as
      it was. */
  lemma SignedLookup(prims: Primitives, secret: string, m: seq<Entry>, timestamp: int, k: string)
    requires k != TIMESTAMP && k != SIGNATURE
    ensures Lookup(SignedParams(prims, secret, m, timestamp), k) == Lookup(m, k)
  {
    var stamped := Assign(m, TIMESTAMP, Int(timestamp));
    AssignLookup(stamped, SIGNATURE, Str(Signature(prims, secret, stamped)), k);
    AssignLookup(m, TIMESTAMP, Int(timestamp), k);
  }

  /** What an order request carries under each key: the upper-cased symbol,
      side and type, the quantity as given, the price and `GTC` only for a
      truthy price, and the clock reading as the timestamp. */
  lemma OrderRequestLookups(cfg: Config, prims: Primitives, symbol: string, side: string, orderType: string,
                            quantity: Value, price: Option<Value>, timestamp: int)
    ensures var q := OrderRequest(cfg, prims, symbol, side, orderType, quantity, price, timestamp).query;
      && Lookup(q, "symbol") == Some(Str(Upper(symbol)))
      && Lookup(q, "side") == Some(Str(Upper(side)))
      && Lookup(q, "type") == Some(Str(Upper(orderType)))
      && Lookup(q, "quantity") == Some(quantity)
      && Lookup(q, "price") == (if Truthy(price) then price else None)
      && Lookup(q, "timeInForce") == (if Truthy(price) then Some(Str("GTC")) else None)
      && Lookup(q, TIMESTAMP) == Some(Int(timestamp))
  {
    var p := OrderParams(symbol, side, orderType, quantity, price);
    OrderParamsShape(symbol, side, orderType, quantity, price);
    SignedLookup(prims, cfg.secretKey, p, timestamp, "symbol");
    SignedLookup(prims, cfg.secretKey, p, timestamp, "side");
    SignedLookup(prims, cfg.secretKey, p, timestamp, "type");
    SignedLookup(prims, cfg.secretKey, p, timestamp, "quantity");
    SignedLookup(prims, cfg.secretKey, p, timestamp, "price");
    SignedLookup(prims, cfg.secretKey, p, timestamp, "timeInForce");
    var stamped := Assign(p, TIMESTAMP, Int(timestamp));
    AssignLookup(stamped, SIGNATURE, Str(Signature(prims, cfg.secretKey, stamped)), TIMESTAMP);
    AssignLookup(p, TIMESTAMP, Int(timestamp), TIMESTAMP);
  }

  /** `send_signed_request(method, endpoint, params)`: stamps and signs the
      caller's dictionary in place (a fresh one when `params` is `None`),
      issues exactly one HTTP call and maps its outcome. The clock reading
      and the network's outcome are inputs. */
  method SendSignedRequest(cfg: Config, prims: Primitives, verb: string, endpoint: string,
                           params: ParamMap?, timestamp: int, outcome: Outcome)
    returns (sent: Request, response: Option<Json>)
    requires params != null ==> params.Valid()
    modifies params
    ensures params != null ==> params.Valid()
    ensures params != null ==>
              params.entries == SignedParams(prims, cfg.secretKey, old(params.entries), timestamp)
    ensures sent == RequestFor(cfg, verb, endpoint,
                               SignedParams(prims, cfg.secretKey, if params == null then [] else old(params.entries), timestamp))
    ensures response == ResponseOf(outcome)
  {
    var p := params;
    if p == null {
      p := new ParamMap();
    }
    p.Set(TIMESTAMP, Int(timestamp));
    var signature := Signature(prims, cfg.secretKey, p.entries);
    p.Set(SIGNATURE, Str(signature));
    sent := RequestFor(cfg, verb, endpoint, p.entries);
    response := ResponseOf(outcome);
  }

  /** `place_order(symbol, side, order_type, quantity, price)`: builds a
      fresh parameter dictionary and sends it signed by POST to the order
      endpoint. */
  method PlaceOrder(cfg: Config, prims: Primitives, symbol: string, side: string, orderType: string,
                    quantity: Value, price: Option<Value>, timestamp: int, outcome: Outcome)
    returns (sent: Request, response: Option<Json>)
    ensures sent == OrderRequest(cfg, prims, symbol, side, orderType, quantity, price, timestamp)
    ensures response == ResponseOf(outcome)
  {
    var params := new ParamMap.Of([("symbol", Str(Upper(symbol))), ("side", Str(Upper(side))),
                                   ("type", Str(Upper(orderType))), ("quantity", quantity)]);
    ghost var base := params.entries;
    if Truthy(price) {
      params.Set("price", price.value);
      params.Set("timeInForce", Str("GTC"));
      PricedDisplay(base, price.value);
    }
    OrderParamsShape(symbol, side, orderType, quantity, price);
    sent, response := SendSignedRequest(cfg, prims, "POST", ORDER_ENDPOINT, params, timestamp, outcome);
  }
}
