# degiro-connector core, modelled in Dafny

This project models the three pieces of sequential logic in the trading
client of degiro-connector, a Python SDK for the Degiro broker's HTTP API:

- **Order confirmation** (`ActionConfirmOrder`, module `ConfirmOrder`): the
  fixed table `ORDER_FILTER_MATCHING` of allowed payload keys per order type,
  `order_to_api` (overlay a derived `buySell`, look the whitelist up, copy the
  whitelisted keys), and `confirm_order` (build the URL and query parameters,
  post, accept the reply only when it carries `data.orderId`, write that id
  into the caller's `Order`).
- **Agenda fetch** (`ActionGetAgenda`, module `GetAgenda`): the query
  parameters of `agenda_request_to_api`, the calendar type's enum name
  re-cased with Python's `str.title()` and stripped of `_`, the forced
  `offset` / `orderByDesc`, and `get_agenda`, which adds `intAccount` and
  `sessionId` and returns the raw reply, the parsed agenda or null.
- **Session guard** (`ConnectionStorage`, module `Connection`): a class with
  the session id (unset until set) and the time of the last 200 response; the
  getter fails when no id was set and when the timeout is strictly exceeded,
  the response hook moves the last-success time forward on status 200 only.
  Its pure counterpart (`Session`, `ReadSessionId`, `AfterResponse`, ...) and
  a replay of event sequences carry the lemmas.

Support modules: `Wrappers` (Option, Result), `Json` (decoded JSON values and
Python's `in` / `[]` on them, with the exceptions they raise), `Http` (the
request an action builds, the outcome of sending it, credentials).

External collaborators are parameters: the schema serialiser's output
(`MessageToDict`) is a given map, the schema parser (`ParseDict`) is a
function `Json -> Option<...>`, sending a request and decoding its body is an
`Exchange` value (`Replied(reply)` or `Failed`), the login collaborator's
outcome is an `Option<string>`, and every clock read is an `int` parameter
`now`. The methods that send return the request they built (`sent`), so "no
request is sent" is `sent == None`.

Setting a session id does not revive an expired session: the setter
(trading/models/connection_storage.py:60) leaves `_last_success` alone, so
only a 200 response does (`Connection.SetDoesNotRevive`). A `connect` revives
it when the login's own response, which passes through the response hook, has
status 200 (`Connection.ConnectRevives`).

## Model

| member | source | states |
|---|---|---|
| ConfirmOrder.OrderFilterMatching | degiro_connector/trading/actions/action_confirm_order.py:19-52 | exactly the four named order types have a whitelist; each holds buySell, orderType, productId, size, timeType; price only for LIMIT and STOP_LIMIT; stopPrice only for STOP_LIMIT and STOP_LOSS |
| ConfirmOrder.BuySell | degiro_connector/trading/actions/action_confirm_order.py:66-70 | buySell is "BUY" iff the action is BUY and "SELL" for every other action |
| ConfirmOrder.Restrict | degiro_connector/trading/actions/action_confirm_order.py:79-81 | the filtered dict's keys are the common keys of the dict and the whitelist, each with its value unchanged |
| ConfirmOrder.OrderPayload | degiro_connector/trading/actions/action_confirm_order.py:55-83 | fails with AttributeError iff the type is unknown; otherwise the keys are the intersection of the serialised keys plus buySell with the type's whitelist, buySell is present with the derived value, every other key carries its serialised value |
| ConfirmOrder.OrderToApi | degiro_connector/trading/actions/action_confirm_order.py:54-83 | the key-by-key copy loop returns exactly OrderPayload |
| ConfirmOrder.PriceFieldsByType | degiro_connector/trading/actions/action_confirm_order.py:19-52 | price is never sent for MARKET or STOP_LOSS, stopPrice never for LIMIT or MARKET |
| ConfirmOrder.PayloadFilterIdempotent | degiro_connector/trading/actions/action_confirm_order.py:79-81 | filtering the payload again with the same whitelist returns it unchanged |
| ConfirmOrder.PayloadKeysExactWhenComplete | degiro_connector/trading/actions/action_confirm_order.py:57-81 | when the serialisation holds every whitelisted field, the payload's key set is exactly the whitelist |
| ConfirmOrder.ConfirmUrl | degiro_connector/trading/actions/action_confirm_order.py:117-118 | the URL is the endpoint, "/", the confirmation id, then ";jsessionid=" and the session id |
| ConfirmOrder.ConfirmParams | degiro_connector/trading/actions/action_confirm_order.py:120-123 | the query holds exactly intAccount (the credentials' account) and sessionId |
| Json.Contains | degiro_connector/trading/actions/action_confirm_order.py:147 | Python's `in` succeeds exactly on dict, list and str operands, as key, element and substring test; anything else raises |
| Json.Subscript | degiro_connector/trading/actions/action_confirm_order.py:150 | Python's `[]` with a str key yields a value exactly when the operand is a dict holding the key |
| ConfirmOrder.AcceptReplyAsWritten | degiro_connector/trading/actions/action_confirm_order.py:144-153 | the reply test as the code evaluates it: any id it accepts is the intended one, and what else it can do is raise TypeError |
| ConfirmOrder.AcceptReply | degiro_connector/trading/actions/action_confirm_order.py:144-158 | a reply is accepted iff it is an object whose data is an object holding orderId, and the accepted id is data.orderId |
| ConfirmOrder.AcceptReplyAgreesOnObjects | degiro_connector/trading/actions/action_confirm_order.py:144-148 | whenever data is absent or an object, the test as written decides exactly as intended |
| ConfirmOrder.NonObjectDataRaises | degiro_connector/trading/actions/action_confirm_order.py:144-148 | the reply {"data": 5} raises TypeError as written but is merely refused as intended |
| ConfirmOrder.StringDataRaises | degiro_connector/trading/actions/action_confirm_order.py:144-153 | the reply {"data": "orderId"} passes the substring test and raises TypeError on the subscript |
| ConfirmOrder.ConfirmOrder | degiro_connector/trading/actions/action_confirm_order.py:100-160 | an unknown type raises before any request exists; otherwise the POST carries the filtered payload; a failed send or a refused reply gives null and leaves order.id alone; an accepted reply sets order.id to data.orderId in both modes and returns the raw reply or the parsed, time-stamped response |
| GetAgenda.Title | degiro_connector/trading/actions/action_get_agenda.py:32 | str.title() keeps the length |
| GetAgenda.TitleAt | degiro_connector/trading/actions/action_get_agenda.py:32 | str.title() upper-cases a character at the start or after an uncased one, lower-cases it after a cased one |
| GetAgenda.RemoveUnderscores | degiro_connector/trading/actions/action_get_agenda.py:32 | replace("_", "") leaves no `_` and shortens the string by its number of `_` |
| GetAgenda.RemoveUnderscoresAt | degiro_connector/trading/actions/action_get_agenda.py:32 | every character other than `_` is kept, at its index less the `_` before it |
| GetAgenda.TitleKeepsUnderscores | degiro_connector/trading/actions/action_get_agenda.py:32 | re-casing neither moves nor creates a `_` |
| GetAgenda.CalendarTypeParam | degiro_connector/trading/actions/action_get_agenda.py:31-33 | the calendarType value holds no `_` and its length is the enum name's length less its `_` count |
| GetAgenda.CalendarTypeParamAt | degiro_connector/trading/actions/action_get_agenda.py:32 | each non-`_` character of the name appears in calendarType, upper-case at the start or after an uncased character, lower-case after a cased one |
| GetAgenda.UpperSnakeCalendarTypeParam | degiro_connector/trading/actions/action_get_agenda.py:32 | for a name of capitals and `_`, the first letter and every letter after `_` stay upper-case and all others become lower-case |
| GetAgenda.AgendaRequestToApi | degiro_connector/trading/actions/action_get_agenda.py:19-37 | an unnamed calendar type raises ValueError; otherwise the keys are the serialised ones plus calendarType, offset and orderByDesc, which always hold the request's values, and every other key keeps its serialised value |
| GetAgenda.GetAgenda | degiro_connector/trading/actions/action_get_agenda.py:56-98 | the GET's params end with intAccount and sessionId over the agenda params; a failed send or a parser failure gives null; raw mode returns the reply unchanged |
| Connection.Initial | trading/models/connection_storage.py:73-76 | a new store has no id, last success 0 and the given timeout |
| Connection.ReadSessionId | trading/models/connection_storage.py:43-49 | the getter succeeds iff an id is set and the timeout is not strictly exceeded, and then returns the stored id |
| Connection.WithSessionId | trading/models/connection_storage.py:51-60 | the setter stores the id and leaves the last success and the timeout unchanged |
| Connection.AfterResponse | trading/models/connection_storage.py:86-94 | the hook never moves the last success back, moves it to `now` only on status 200, and keeps the id |
| Connection.NonOkResponseIgnored | trading/models/connection_storage.py:92-94 | a response with a status other than 200 changes nothing |
| Connection.ResponseHookIdempotent | trading/models/connection_storage.py:92-94 | replaying the same response leaves the state of the first application |
| Connection.UnsetBeforeExpiry | trading/models/connection_storage.py:43-47 | with no id the getter fails with ConnectionAbortedError, before any expiry check |
| Connection.ExpiryIsStrict | trading/models/connection_storage.py:46-49 | with an id, the getter raises TimeoutError exactly when now - last success > timeout; equality still reads |
| Connection.FreshStoreExpiresAfterDefault | trading/models/connection_storage.py:73-83 | a default store given an id reads as expired exactly when now > 1800 |
| Connection.SetDoesNotRevive | trading/models/connection_storage.py:60 | setting an id on an expired store leaves it expired |
| Connection.ReadableAfterOk | trading/models/connection_storage.py:79-94 | after a 200 response at t, a set id reads at any time up to t plus the timeout |
| Connection.AfterConnect | trading/models/connection_storage.py:96-99 | connect stores exactly the id the login returns (nothing when it raises) and moves the last success only as the hook does for the login's response |
| Connection.ConnectRevives | trading/models/connection_storage.py:86-99 | a login answered with 200 at t that returns an id makes the store read that id up to t plus the timeout, even if it was expired |
| Connection.ConnectWithoutOkStaysExpired | trading/models/connection_storage.py:86-99 | a login that returns an id without a 200 response leaves an expired store expired |
| Connection.ReplayLastSuccessIsMax | trading/models/connection_storage.py:86-94 | over any sequence of responses and sets the last success is the maximum of its old value and the 200 response times |
| Connection.ReadableAfterAnyOk | trading/models/connection_storage.py:79-94 | after any sequence holding a 200 response at t, a set id reads at any time up to t plus the timeout |
| Connection.ReplaySessionId | trading/models/connection_storage.py:51-60 | after any sequence of events the id is the one the last set stored, or the old one |
| Connection.ConnectionStorage.constructor | trading/models/connection_storage.py:73-76 | construction gives no id, last success 0 and the timeout, 1800 by default |
| Connection.ConnectionStorage.IsTimeoutExpired | trading/models/connection_storage.py:79-83 | expired iff now - last success > timeout (TimeoutExpired of the current state) |
| Connection.ConnectionStorage.GetSessionId | trading/models/connection_storage.py:34-49 | the getter method returns what ReadSessionId gives for the current state |
| Connection.ConnectionStorage.SetSessionId | trading/models/connection_storage.py:51-60 | the new state is the old one with the id stored |
| Connection.ConnectionStorage.ResponseHook | trading/models/connection_storage.py:85-94 | the new state is AfterResponse of the old one |
| Connection.ConnectionStorage.Connect | trading/models/connection_storage.py:96-99 | the login's response passes through the hook, then the id the login returns is stored; a login that raises stores nothing; the new state is AfterConnect of the old one |

## Findings

| source | as written | input that shows it | evidently intended | confidence | as-written member | corrected member |
|---|---|---|---|---|---|---|
| degiro_connector/trading/actions/action_confirm_order.py:144-153 | `"orderId" in response_dict["data"]` and `response_dict["data"]["orderId"]` run outside the exception handler on whatever `data` is: a number, bool or null makes `in` raise TypeError, a string or list that contains "orderId" passes `in` and makes the subscript raise TypeError | reply `{"data": 5}`; reply `{"data": "orderId"}` | a reply whose `data` is not an object is malformed and yields null, like every other malformed reply | medium, not executed | ConfirmOrder.AcceptReplyAsWritten (with ConfirmOrder.NonObjectDataRaises, ConfirmOrder.StringDataRaises) | ConfirmOrder.AcceptReply (used by ConfirmOrder.ConfirmOrder; ConfirmOrder.AcceptReplyAgreesOnObjects) |

## Left out

- HTTP transport: preparing and sending requests, TLS verification, headers, and the registration of the response hook on the HTTP session (done by the `basic` setter). A send and the JSON decode of its body are one `Exchange` value.
- Thread safety: the `synchronized` locking of the getter, setter, hook and connect. The class is modelled sequentially.
- The protobuf library: `MessageToDict` (its output is a parameter, so no claim is made about which keys the schema emits beyond the whitelist intersection) and `ParseDict` (a parameter; its schema checks, and what it overwrites in the message, are not modelled).
- Logging, URL constants (the endpoint is a parameter) and the `call` methods, which only forward stored fields.
- Floating point: prices are opaque JSON literals, and `time.time()` is an integer parameter `now`, so float rounding of times is not modelled.
- ConfirmOrder.ConfirmOrder: an accepted `orderId` that is not a JSON string is modelled as the TypeError protobuf raises on assignment to the string field `id`; protobuf's own type checks are otherwise not modelled.
- GetAgenda.Title: covers ASCII letter case only; enum names are ASCII identifiers, so Unicode case mapping and title-case characters are not modelled.
- Connection.ConnectionStorage.Connect: the login collaborator (`Basic`) is not part of this model; its traffic over the hooked session is taken to be at most one response, given as a parameter, and any further responses it receives are not modelled.
- The `hasattr(self, '_last_success')` guard of `is_timeout_expired`: the constructor always sets the field, so the branch cannot be reached and is not modelled.
- action_get_products_config.py is not part of this model: it only builds a two-key query and wraps the reply for the schema parser.
