/**
  Order confirmation (ActionConfirmOrder): the per-order-type field whitelist,
  the payload filter `order_to_api`, and `confirm_order`, which posts the
  filtered payload and accepts the broker's reply only when it carries
  `data.orderId`, writing that id back into the caller's order.
 */
module ConfirmOrder {
  import opened Wrappers
  import opened Json
  import opened Http

  /** Order.OrderType: the four named variants, or any other number the message may carry. */
  datatype OrderType = Limit | StopLimit | Market | StopLoss | UnknownOrderType(number: int)

  /** Order.Action: BUY, SELL, or any other number the message may carry. */
  datatype Action = Buy | Sell | UnknownAction(number: int)

  /** The part of an Order message this core reads or writes; `id` is written in place by ConfirmOrder. */
  class Order {
    var id: string
    const action: Action
    const orderType: OrderType

    constructor (id: string, action: Action, orderType: OrderType)
      ensures this.id == id && this.action == action && this.orderType == orderType
    {
      this.id := id;
      this.action := action;
      this.orderType := orderType;
    }
  }

  /** The keys every whitelist shares. */
  const CommonFields: set<string> := {"buySell", "orderType", "productId", "size", "timeType"}

  /** ORDER_FILTER_MATCHING: the keys that may be sent for each order type; none for an unknown type. */
  function OrderFilterMatching(t: OrderType): (r: Option<set<string>>)
    ensures r.None? <==> t.UnknownOrderType?
    ensures r.Some? ==> CommonFields <= r.value
    ensures r.Some? ==> ("price" in r.value <==> t == Limit || t == StopLimit)
    ensures r.Some? ==> ("stopPrice" in r.value <==> t == StopLimit || t == StopLoss)
    ensures r.Some? ==> r.value <= CommonFields + {"price", "stopPrice"}
  {
    match t
    case Limit => Some(CommonFields + {"price"})
    case StopLimit => Some(CommonFields + {"price", "stopPrice"})
    case Market => Some(CommonFields)
    case StopLoss => Some(CommonFields + {"stopPrice"})
    case UnknownOrderType(_) => None
  }

  /** The derived `buySell` value: "BUY" for a BUY action, "SELL" for every other action. */
  function BuySell(a: Action): (r: Json)
    ensures r == Str("BUY") <==> a == Buy
    ensures r == Str("SELL") <==> a != Buy
  {
    if a == Buy then Str("BUY") else Str("SELL")
  }

  /** The entries of `m` whose key is in `keep`, each with its value unchanged. */
  function Restrict(m: map<string, Json>, keep: set<string>): (r: map<string, Json>)
    ensures r.Keys == m.Keys * keep
    ensures forall k :: k in r ==> r[k] == m[k]
  {
    map k | k in m.Keys * keep :: m[k]
  }

  /**
    What order_to_api returns for an order with the given action and type whose
    schema serialisation is `serialised`: the serialisation with `buySell`
    overlaid, cut down to the whitelist of the type; AttributeError for a type
    without a whitelist.
   */
  function OrderPayload(action: Action, orderType: OrderType, serialised: map<string, Json>)
    : (r: Result<map<string, Json>, Exception>)
    ensures r.Failure? <==> orderType.UnknownOrderType?
    ensures r.Failure? ==> r.error == AttributeError
    ensures r.Success? ==> r.value.Keys == (serialised.Keys + {"buySell"}) * OrderFilterMatching(orderType).value
    ensures r.Success? ==> forall k :: k in r.value && k != "buySell" ==> k in serialised && r.value[k] == serialised[k]
    ensures r.Success? ==> "buySell" in r.value && r.value["buySell"] == BuySell(action)
  {
    match OrderFilterMatching(orderType)
    case None => Failure(AttributeError)
    case Some(fieldsToKeep) => Success(Restrict(serialised["buySell" := BuySell(action)], fieldsToKeep))
  }

  /**
    order_to_api: overlays `buySell`, looks the whitelist up, and copies the
    whitelisted keys one by one into a fresh dict.
   */
  method OrderToApi(action: Action, orderType: OrderType, serialised: map<string, Json>)
    returns (r: Result<map<string, Json>, Exception>)
    ensures r == OrderPayload(action, orderType, serialised)
  {
    var orderDict := serialised["buySell" := BuySell(action)];
    var fieldsToKeep: set<string>;
    match OrderFilterMatching(orderType) {
      case None =>
        return Failure(AttributeError);
      case Some(w) =>
        fieldsToKeep := w;
    }
    var filtered: map<string, Json> := map[];
    var remaining := orderDict.Keys * fieldsToKeep;
    while remaining != {}
      invariant remaining <= orderDict.Keys * fieldsToKeep
      invariant filtered.Keys == orderDict.Keys * fieldsToKeep - remaining
      invariant forall k :: k in filtered ==> filtered[k] == orderDict[k]
      decreases remaining
    {
      var field :| field in remaining;
      filtered := filtered[field := orderDict[field]];
      remaining := remaining - {field};
    }
    assert filtered == Restrict(orderDict, fieldsToKeep);
    r := Success(filtered);
  }

  /** `price` never goes out with a MARKET or STOP_LOSS order, `stopPrice` never with a LIMIT or MARKET order. */
  lemma PriceFieldsByType(action: Action, orderType: OrderType, serialised: map<string, Json>)
    requires OrderPayload(action, orderType, serialised).Success?
    ensures orderType == Market || orderType == StopLoss ==> "price" !in OrderPayload(action, orderType, serialised).value
    ensures orderType == Limit || orderType == Market ==> "stopPrice" !in OrderPayload(action, orderType, serialised).value
  {
  }

  /** Filtering the payload again with the same whitelist gives it back unchanged. */
  lemma PayloadFilterIdempotent(action: Action, orderType: OrderType, serialised: map<string, Json>)
    requires OrderPayload(action, orderType, serialised).Success?
    ensures var p := OrderPayload(action, orderType, serialised).value;
            Restrict(p, OrderFilterMatching(orderType).value) == p
  {
  }

  /**
    When the serialisation holds every whitelisted field (it includes default
    values, so for a schema that defines them all it does), the payload's key
    set is exactly the whitelist.
   */
  lemma PayloadKeysExactWhenComplete(action: Action, orderType: OrderType, serialised: map<string, Json>)
    requires !orderType.UnknownOrderType?
    requires OrderFilterMatching(orderType).value - {"buySell"} <= serialised.Keys
    ensures OrderPayload(action, orderType, serialised).value.Keys == OrderFilterMatching(orderType).value
  {
  }

  /** The URL confirm_order posts to: the endpoint, then `/<confirmation id>;jsessionid=<session id>`. */
  function ConfirmUrl(endpoint: string, confirmationId: string, sessionId: string): (u: string)
    ensures endpoint + "/" <= u
    ensures |u| == |endpoint| + 1 + |confirmationId| + |";jsessionid="| + |sessionId|
    ensures u[|endpoint| + 1..|endpoint| + 1 + |confirmationId|] == confirmationId
    ensures u[|u| - |sessionId| - |";jsessionid="|..] == ";jsessionid=" + sessionId
  {
    endpoint + "/" + confirmationId + ";jsessionid=" + sessionId
  }

  /** The query parameters of confirm_order: the account number and the session id, nothing else. */
  function ConfirmParams(credentials: Credentials, sessionId: string): (p: map<string, Json>)
    ensures p.Keys == {"intAccount", "sessionId"}
    ensures p["intAccount"] == Int(credentials.intAccount) && p["sessionId"] == Str(sessionId)
  {
    map["intAccount" := Int(credentials.intAccount), "sessionId" := Str(sessionId)]
  }

  /** The verdict of confirm_order's reply test as the code evaluates it: accept an id, refuse, or raise. */
  datatype Verdict = Accept(orderId: Json) | Reject | Raise(error: Exception)

  /**
    The reply test as written: `isinstance(reply, dict) and "data" in reply and
    "orderId" in reply["data"]`, then `reply["data"]["orderId"]`. Python's `in`
    and `[]` are applied to whatever `data` is, so a `data` that is not an object
    can make either of them raise, outside the handler that turns failures into
    a null result.
   */
  function AcceptReplyAsWritten(reply: Json): (v: Verdict)
    ensures v.Accept? ==> AcceptReply(reply) == Some(v.orderId)
    ensures v.Raise? ==> v.error == TypeError
  {
    if !reply.Object? || "data" !in reply.members then Reject
    else
      var data := reply.members["data"];
      match Contains(data, "orderId")
      case Failure(e) => Raise(e)
      case Success(false) => Reject
      case Success(true) =>
        match Subscript(data, "orderId")
        case Failure(e) => Raise(e)
        case Success(id) => Accept(id)
  }

  /**
    The reply test as intended: the reply is accepted, with its `data.orderId`,
    exactly when it is an object whose `data` is an object holding `orderId`;
    every other reply is malformed and yields no id.
   */
  function AcceptReply(reply: Json): (r: Option<Json>)
    ensures r.Some? <==> (reply.Object? && "data" in reply.members
                          && reply.members["data"].Object? && "orderId" in reply.members["data"].members)
    ensures r.Some? ==> r.value == reply.members["data"].members["orderId"]
  {
    if reply.Object? && "data" in reply.members && reply.members["data"].Object?
       && "orderId" in reply.members["data"].members
    then Some(reply.members["data"].members["orderId"])
    else None
  }

  /** On every reply whose `data` is absent or an object, the code as written decides as intended. */
  lemma {:induction false} AcceptReplyAgreesOnObjects(reply: Json)
    requires reply.Object? && "data" in reply.members ==> reply.members["data"].Object?
    ensures AcceptReplyAsWritten(reply) == (if AcceptReply(reply).Some? then Accept(AcceptReply(reply).value) else Reject)
  {
  }

  /** `{"data": 5}` makes the code as written raise TypeError, where a malformed reply should yield nothing. */
  lemma NonObjectDataRaises()
    ensures AcceptReplyAsWritten(Object(map["data" := Int(5)])) == Raise(TypeError)
    ensures AcceptReply(Object(map["data" := Int(5)])).None?
  {
  }

  /** `{"data": "orderId"}` passes the `in` test as a substring and then raises on the subscript. */
  lemma StringDataRaises()
    ensures AcceptReplyAsWritten(Object(map["data" := Str("orderId")])) == Raise(TypeError)
    ensures AcceptReply(Object(map["data" := Str("orderId")])).None?
  {
    assert IsSubstring("orderId", "orderId");
  }

  /** An Order.ConfirmationResponse: the time it was stamped at, and the fields parsed from `data`. */
  datatype ConfirmationResponse = ConfirmationResponse(responseDatetime: int, fields: map<string, Json>)

  /** What confirm_order gives back: null, the raw reply, a parsed response, or an exception that escapes. */
  datatype ConfirmOutcome =
    | NoResult
    | RawReply(reply: Json)
    | Parsed(response: ConfirmationResponse)
    | Raised(error: Exception)

  /**
    confirm_order. The transport is not modelled: `exchange` is what sending the
    request and decoding its body would produce, and it is only consulted once a
    request has been built (`sent`). `parse` stands for the schema parser run on
    `data` and `now` for the clock read when a response is stamped.
   */
  method ConfirmOrder(
    confirmationId: string, credentials: Credentials, order: Order, sessionId: string,
    serialised: map<string, Json>, raw: bool, endpoint: string,
    exchange: Exchange, parse: Json -> Option<map<string, Json>>, now: int)
    returns (sent: Option<HttpRequest>, outcome: ConfirmOutcome)
    modifies order
    // an unknown order type raises before any request exists
    ensures order.orderType.UnknownOrderType? ==>
              sent == None && outcome == Raised(AttributeError) && order.id == old(order.id)
    ensures !order.orderType.UnknownOrderType? ==>
              sent == Some(HttpRequest(Post, ConfirmUrl(endpoint, confirmationId, sessionId),
                                       ConfirmParams(credentials, sessionId),
                                       Some(OrderPayload(order.action, order.orderType, serialised).value)))
    // a failed send or decode gives null and leaves the order alone
    ensures sent.Some? && exchange.Failed? ==> outcome == NoResult && order.id == old(order.id)
    // a malformed reply gives null and leaves the order alone
    ensures sent.Some? && exchange.Replied? && AcceptReply(exchange.reply).None? ==>
              outcome == NoResult && order.id == old(order.id)
    // an accepted reply whose id is not a string cannot be stored in the order's string field
    ensures sent.Some? && exchange.Replied? && AcceptReply(exchange.reply).Some? && !AcceptReply(exchange.reply).value.Str? ==>
              outcome == Raised(TypeError) && order.id == old(order.id)
    // an accepted reply writes its id into the order, in both modes
    ensures sent.Some? && exchange.Replied? && AcceptReply(exchange.reply).Some? && AcceptReply(exchange.reply).value.Str? ==>
              && order.id == AcceptReply(exchange.reply).value.s
              && outcome == (if raw then RawReply(exchange.reply)
                             else match parse(exchange.reply.members["data"])
                                  case Some(fields) => Parsed(ConfirmationResponse(now, fields))
                                  case None => Raised(ParseError))
  {
    var url := ConfirmUrl(endpoint, confirmationId, sessionId);
    var params := ConfirmParams(credentials, sessionId);
    var orderDict := OrderToApi(order.action, order.orderType, serialised);
    if orderDict.Failure? {
      return None, Raised(orderDict.error);
    }
    sent := Some(HttpRequest(Post, url, params, Some(orderDict.value)));
    if exchange.Failed? {
      return sent, NoResult;
    }
    var reply := exchange.reply;
    match AcceptReply(reply) {
      case None =>
        outcome := NoResult;
      case Some(id) =>
        if !id.Str? {
          return sent, Raised(TypeError);
        }
        order.id := id.s;
        if raw {
          outcome := RawReply(reply);
        } else {
          match parse(reply.members["data"]) {
            case Some(fields) =>
              outcome := Parsed(ConfirmationResponse(now, fields));
            case None =>
              outcome := Raised(ParseError);
          }
        }
    }
  }
}
