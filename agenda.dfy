/**
  Agenda fetch (ActionGetAgenda): the query parameters built from an
  Agenda.Request, with the calendar type's enum name re-cased by Python's
  `str.title()` and stripped of `_`, and `get_agenda`, which adds the account
  and session, sends a GET and returns the raw or parsed reply, or null.
 */
module GetAgenda {
  import opened Wrappers
  import opened Json
  import opened Http

  /** Agenda.CalendarType: a value with an enum name, or a number the enum does not name. */
  datatype CalendarType = Named(name: string) | Unnamed(number: int)

  /** The fields of Agenda.Request that the action reads itself; the rest reach it only through the serialisation. */
  datatype AgendaRequest = AgendaRequest(calendarType: CalendarType, offset: int, orderByDesc: bool)

  // ASCII letter case, the only case an enum name can carry.

  predicate IsUpper(c: char) { 'A' <= c <= 'Z' }

  predicate IsLower(c: char) { 'a' <= c <= 'z' }

  /** Python's notion of a cased character, restricted to ASCII. */
  predicate IsCased(c: char) { IsUpper(c) || IsLower(c) }

  function ToUpper(c: char): (u: char)
    ensures IsCased(c) ==> IsUpper(u) && ToLower(u) == ToLower(c)
    ensures !IsCased(c) ==> u == c
  {
    if IsLower(c) then (c as int - 32) as char else c
  }

  function ToLower(c: char): (l: char)
    ensures IsCased(c) ==> IsLower(l)
    ensures !IsCased(c) ==> l == c
    ensures IsLower(c) ==> l == c
  {
    if IsUpper(c) then (c as int + 32) as char else c
  }

  /**
    `str.title()` on the rest `s` of a string, given whether the character
    before it was cased: a character after a cased one is lower-cased, any
    other is upper-cased.
   */
  function TitleFrom(s: string, previousIsCased: bool): (r: string)
    ensures |r| == |s|
  {
    if s == [] then []
    else [if previousIsCased then ToLower(s[0]) else ToUpper(s[0])] + TitleFrom(s[1..], IsCased(s[0]))
  }

  /** Python's `s.title()`. */
  function Title(s: string): (r: string)
    ensures |r| == |s|
  {
    TitleFrom(s, false)
  }

  lemma {:induction false} TitleFromAt(s: string, previousIsCased: bool, i: nat)
    requires i < |s|
    ensures TitleFrom(s, previousIsCased)[i] ==
            if (if i == 0 then previousIsCased else IsCased(s[i - 1])) then ToLower(s[i]) else ToUpper(s[i])
  {
    if i > 0 {
      TitleFromAt(s[1..], IsCased(s[0]), i - 1);
    }
  }

  /** The `str.title()` rule, character by character. */
  lemma TitleAt(s: string, i: nat)
    requires i < |s|
    ensures Title(s)[i] == if i > 0 && IsCased(s[i - 1]) then ToLower(s[i]) else ToUpper(s[i])
  {
    TitleFromAt(s, false, i);
  }

  /** The number of `_` in `s`. */
  function Underscores(s: string): (n: nat)
    ensures n <= |s|
  {
    if s == [] then 0 else (if s[0] == '_' then 1 else 0) + Underscores(s[1..])
  }

  /** `s.replace("_", "")`. */
  function RemoveUnderscores(s: string): (r: string)
    ensures '_' !in r
    ensures |r| == |s| - Underscores(s)
  {
    if s == [] then []
    else if s[0] == '_' then RemoveUnderscores(s[1..])
    else [s[0]] + RemoveUnderscores(s[1..])
  }

  lemma {:induction false} RemoveUnderscoresAppend(a: string, b: string)
    ensures RemoveUnderscores(a + b) == RemoveUnderscores(a) + RemoveUnderscores(b)
  {
    if a != [] {
      assert (a + b)[0] == a[0] && (a + b)[1..] == a[1..] + b;
      RemoveUnderscoresAppend(a[1..], b);
      if a[0] != '_' {
        assert [a[0]] + (RemoveUnderscores(a[1..]) + RemoveUnderscores(b))
            == ([a[0]] + RemoveUnderscores(a[1..])) + RemoveUnderscores(b);
      }
    } else {
      assert a + b == b;
    }
  }

  /** Removing `_` keeps every other character, at its index less the `_` before it. */
  lemma RemoveUnderscoresAt(s: string, i: nat)
    requires i < |s| && s[i] != '_'
    ensures i - Underscores(s[..i]) < |RemoveUnderscores(s)|
    ensures RemoveUnderscores(s)[i - Underscores(s[..i])] == s[i]
  {
    assert s == s[..i] + s[i..];
    RemoveUnderscoresAppend(s[..i], s[i..]);
    assert RemoveUnderscores(s[i..]) == [s[i]] + RemoveUnderscores(s[i + 1..]) by {
      assert s[i..][1..] == s[i + 1..];
    }
  }

  /** Two strings of one length with `_` at the same indices hold the same number of `_`. */
  lemma {:induction false} UnderscoresAgree(a: string, b: string)
    requires |a| == |b|
    requires forall j :: 0 <= j < |a| ==> (a[j] == '_' <==> b[j] == '_')
    ensures Underscores(a) == Underscores(b)
  {
    if a != [] {
      assert a[0] == '_' <==> b[0] == '_';
      UnderscoresAgree(a[1..], b[1..]);
    }
  }

  /** `str.title()` leaves every `_` where it is and creates none. */
  lemma TitleKeepsUnderscores(s: string, i: nat)
    requires i <= |s|
    ensures Underscores(Title(s)[..i]) == Underscores(s[..i])
  {
    forall j | 0 <= j < i
      ensures Title(s)[..i][j] == '_' <==> s[..i][j] == '_'
    {
      TitleAt(s, j);
    }
    UnderscoresAgree(Title(s)[..i], s[..i]);
  }

  /** The `calendarType` query value: `Name(calendar_type).title().replace("_", "")`. */
  function CalendarTypeParam(name: string): (r: string)
    ensures '_' !in r
    ensures |r| == |name| - Underscores(name)
  {
    TitleKeepsUnderscores(name, |name|);
    assert Title(name)[..|name|] == Title(name) && name[..|name|] == name;
    RemoveUnderscores(Title(name))
  }

  /**
    Every character of the enum name other than `_` reappears in the query
    value, shifted left by the `_` before it, upper-cased when it starts the
    name or follows an uncased character and lower-cased otherwise.
   */
  lemma CalendarTypeParamAt(name: string, i: nat)
    requires i < |name| && name[i] != '_'
    ensures i - Underscores(name[..i]) < |CalendarTypeParam(name)|
    ensures CalendarTypeParam(name)[i - Underscores(name[..i])] ==
            if i > 0 && IsCased(name[i - 1]) then ToLower(name[i]) else ToUpper(name[i])
  {
    TitleAt(name, i);
    TitleKeepsUnderscores(name, i);
    RemoveUnderscoresAt(Title(name), i);
  }

  /** An enum name in the protobuf style: capital letters and `_` only. */
  predicate IsUpperSnake(name: string) {
    forall j :: 0 <= j < |name| ==> IsUpper(name[j]) || name[j] == '_'
  }

  /**
    For an upper-snake name the query value is its words run together, each
    word's first letter kept upper-case and its other letters lower-cased.
   */
  lemma UpperSnakeCalendarTypeParam(name: string, i: nat)
    requires IsUpperSnake(name)
    requires i < |name| && name[i] != '_'
    ensures i - Underscores(name[..i]) < |CalendarTypeParam(name)|
    ensures CalendarTypeParam(name)[i - Underscores(name[..i])] ==
            if i == 0 || name[i - 1] == '_' then name[i] else ToLower(name[i])
  {
    CalendarTypeParamAt(name, i);
  }

  /** The keys agenda_request_to_api always writes itself. */
  const ForcedKeys: set<string> := {"calendarType", "offset", "orderByDesc"}

  /**
    agenda_request_to_api: start from the serialisation (which omits fields at
    their default value) and write `calendarType`, `offset` and `orderByDesc`
    over it. Naming a calendar type the enum does not know raises ValueError.
   */
  method AgendaRequestToApi(request: AgendaRequest, serialised: map<string, Json>)
    returns (r: Result<map<string, Json>, Exception>)
    ensures r.Failure? <==> request.calendarType.Unnamed?
    ensures r.Failure? ==> r.error == ValueError
    ensures r.Success? ==> r.value.Keys == serialised.Keys + ForcedKeys
    ensures r.Success? ==> r.value["calendarType"] == Str(CalendarTypeParam(request.calendarType.name))
    ensures r.Success? ==> r.value["offset"] == Int(request.offset)
    ensures r.Success? ==> r.value["orderByDesc"] == Bool(request.orderByDesc)
    ensures r.Success? ==> forall k :: k in serialised && k !in ForcedKeys ==> r.value[k] == serialised[k]
  {
    if request.calendarType.Unnamed? {
      return Failure(ValueError);
    }
    var requestDict := serialised;
    requestDict := requestDict["calendarType" := Str(CalendarTypeParam(request.calendarType.name))];
    requestDict := requestDict["offset" := Int(request.offset)];
    requestDict := requestDict["orderByDesc" := Bool(request.orderByDesc)];
    r := Success(requestDict);
  }

  /** An Agenda message: the time it was stamped at, the request's calendar type, and the parsed reply fields. */
  datatype Agenda = Agenda(responseDatetime: int, calendarType: CalendarType, fields: map<string, Json>)

  /** What get_agenda gives back: null, the raw reply, a parsed agenda, or an exception that escapes. */
  datatype AgendaOutcome =
    | NoResult
    | RawReply(reply: Json)
    | Parsed(agenda: Agenda)
    | Raised(error: Exception)

  /**
    get_agenda. `exchange` is what sending the GET and decoding its body would
    produce; `parse` stands for the schema parser run on the reply (its failure
    happens inside the handler, so it yields null) and `now` for the clock read
    when the agenda is stamped.
   */
  method GetAgenda(
    request: AgendaRequest, serialised: map<string, Json>, sessionId: string, credentials: Credentials,
    raw: bool, endpoint: string, exchange: Exchange, parse: Json -> Option<map<string, Json>>, now: int)
    returns (sent: Option<HttpRequest>, outcome: AgendaOutcome)
    ensures request.calendarType.Unnamed? ==> sent == None && outcome == Raised(ValueError)
    ensures request.calendarType.Named? ==>
              && sent.Some? && sent.value.verb == Get && sent.value.url == endpoint && sent.value.body == None
              && sent.value.params.Keys == serialised.Keys + ForcedKeys + {"intAccount", "sessionId"}
              && sent.value.params["intAccount"] == Int(credentials.intAccount)
              && sent.value.params["sessionId"] == Str(sessionId)
              && sent.value.params["calendarType"] == Str(CalendarTypeParam(request.calendarType.name))
              && sent.value.params["offset"] == Int(request.offset)
              && sent.value.params["orderByDesc"] == Bool(request.orderByDesc)
    ensures sent.Some? ==> forall k :: k in serialised && k !in ForcedKeys + {"intAccount", "sessionId"} ==>
                                       sent.value.params[k] == serialised[k]
    ensures sent.Some? && exchange.Failed? ==> outcome == NoResult
    ensures sent.Some? && exchange.Replied? ==>
              outcome == if raw then RawReply(exchange.reply)
                         else match parse(exchange.reply)
                              case Some(fields) => Parsed(Agenda(now, request.calendarType, fields))
                              case None => NoResult
  {
    var params := AgendaRequestToApi(request, serialised);
    if params.Failure? {
      return None, Raised(params.error);
    }
    var query := params.value;
    query := query["intAccount" := Int(credentials.intAccount)];
    query := query["sessionId" := Str(sessionId)];
    sent := Some(HttpRequest(Get, endpoint, query, None));
    match exchange {
      case Failed =>
        outcome := NoResult;
      case Replied(reply) =>
        if raw {
          outcome := RawReply(reply);
        } else {
          match parse(reply) {
            case Some(fields) =>
              outcome := Parsed(Agenda(now, request.calendarType, fields));
            case None =>
              outcome := NoResult;
          }
        }
    }
  }
}
