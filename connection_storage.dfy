/**
  ConnectionStorage: the session guard. It keeps the session id (unset until
  a login or an explicit set) and the time of the last response with status
  200; reading the id fails when none was set, and fails when more than the
  session timeout has passed since that last success. Wall-clock reads are
  the parameter `now`.
 */
module Connection {
  import opened Wrappers

  const DefaultSessionTimeout: int := 1800
  const StatusOk: int := 200

  /** The exceptions the getter raises. */
  datatype StorageError =
    | ConnectionAbortedError   // "Connection required.": no id was ever set
    | TimeoutError             // "Connection have probably expired"

  /** The guarded state: the id (None while unset), the last success time and the timeout. */
  datatype Session = Session(sessionId: Option<string>, lastSuccess: int, sessionTimeout: int)

  /** A freshly constructed store: no id, last success at time 0. */
  function Initial(sessionTimeout: int): (s: Session)
    ensures s.sessionId.None? && s.lastSuccess == 0 && s.sessionTimeout == sessionTimeout
  {
    Session(None, 0, sessionTimeout)
  }

  /** is_timeout_expired: strictly more than the timeout has passed since the last success. */
  predicate TimeoutExpired(s: Session, now: int) {
    now - s.lastSuccess > s.sessionTimeout
  }

  /** The session_id getter: the unset check comes first, then the expiry check. */
  function ReadSessionId(s: Session, now: int): (r: Result<string, StorageError>)
    ensures r.Success? <==> s.sessionId.Some? && !TimeoutExpired(s, now)
    ensures r.Success? ==> r.value == s.sessionId.value
  {
    if s.sessionId.None? then Failure(ConnectionAbortedError)
    else if TimeoutExpired(s, now) then Failure(TimeoutError)
    else Success(s.sessionId.value)
  }

  /** The session_id setter: store the id, nothing else. */
  function WithSessionId(s: Session, id: string): (s': Session)
    ensures s'.sessionId == Some(id)
    ensures s'.lastSuccess == s.lastSuccess && s'.sessionTimeout == s.sessionTimeout
  {
    s.(sessionId := Some(id))
  }

  /** response_hook: a 200 response seen at `now` moves the last success forward to `now`, never back. */
  function AfterResponse(s: Session, status: int, now: int): (s': Session)
    ensures s'.sessionId == s.sessionId && s'.sessionTimeout == s.sessionTimeout
    ensures s'.lastSuccess >= s.lastSuccess
    ensures status == StatusOk ==> s'.lastSuccess >= now
    ensures s'.lastSuccess == s.lastSuccess || (status == StatusOk && s'.lastSuccess == now)
  {
    if s.lastSuccess < now && status == StatusOk then s.(lastSuccess := now) else s
  }

  /** A response with any status other than 200 changes nothing. */
  lemma NonOkResponseIgnored(s: Session, status: int, now: int)
    requires status != StatusOk
    ensures AfterResponse(s, status, now) == s
  {
  }

  /** Seeing the same response twice leaves the state the first sighting left. */
  lemma ResponseHookIdempotent(s: Session, status: int, now: int)
    ensures AfterResponse(AfterResponse(s, status, now), status, now) == AfterResponse(s, status, now)
  {
  }

  /** With no id set, reading fails with ConnectionAbortedError, expired or not. */
  lemma UnsetBeforeExpiry(s: Session, now: int)
    requires s.sessionId.None?
    ensures ReadSessionId(s, now) == Failure(ConnectionAbortedError)
  {
  }

  /** With an id set, reading fails with TimeoutError exactly when the timeout is strictly exceeded. */
  lemma ExpiryIsStrict(s: Session, now: int)
    requires s.sessionId.Some?
    ensures ReadSessionId(s, now) == Failure(TimeoutError) <==> now - s.lastSuccess > s.sessionTimeout
    ensures now - s.lastSuccess == s.sessionTimeout ==> ReadSessionId(s, now) == Success(s.sessionId.value)
  {
  }

  /**
    A store built with the default timeout and then given an id reads as
    expired at every time after 1800, until a 200 response is observed.
   */
  lemma FreshStoreExpiresAfterDefault(id: string, now: int)
    ensures ReadSessionId(WithSessionId(Initial(DefaultSessionTimeout), id), now) ==
            if now > 1800 then Failure(TimeoutError) else Success(id)
  {
  }

  /** Setting an id does not revive an expired session: only a 200 response does. */
  lemma SetDoesNotRevive(s: Session, id: string, now: int)
    requires TimeoutExpired(s, now)
    ensures ReadSessionId(WithSessionId(s, id), now) == Failure(TimeoutError)
  {
  }

  /** After a 200 response at time `t`, a set id can be read at any time up to `t` plus the timeout. */
  lemma ReadableAfterOk(s: Session, t: int, now: int)
    requires s.sessionId.Some?
    requires now <= t + s.sessionTimeout
    ensures ReadSessionId(AfterResponse(s, StatusOk, t), now) == Success(s.sessionId.value)
  {
  }

  /** An HTTP response as the response hook sees it: its status and the time it is observed at. */
  datatype HttpResponse = HttpResponse(status: int, at: int)

  /**
    connect: the login collaborator runs over the hooked HTTP session, so the
    response it receives (if any) passes through the response hook first; then
    the id it returns is stored, or, when it raises (`login` is None), nothing is.
   */
  function AfterConnect(s: Session, loginResponse: Option<HttpResponse>, login: Option<string>): (s': Session)
    ensures s'.sessionTimeout == s.sessionTimeout
    ensures s'.sessionId == if login.Some? then login else s.sessionId
    ensures loginResponse.None? ==> s'.lastSuccess == s.lastSuccess
    ensures loginResponse.Some? ==> s'.lastSuccess == AfterResponse(s, loginResponse.value.status, loginResponse.value.at).lastSuccess
  {
    var hooked := if loginResponse.Some? then AfterResponse(s, loginResponse.value.status, loginResponse.value.at) else s;
    if login.Some? then WithSessionId(hooked, login.value) else hooked
  }

  /**
    A login answered with status 200 at time `t` that returns an id makes the
    store readable, expired or not, at any time up to `t` plus the timeout, and
    the id read is the one the login returned.
   */
  lemma ConnectRevives(s: Session, t: int, id: string, now: int)
    requires now <= t + s.sessionTimeout
    ensures ReadSessionId(AfterConnect(s, Some(HttpResponse(StatusOk, t)), Some(id)), now) == Success(id)
  {
  }

  /** A login that returns an id without a 200 response leaves an expired store expired. */
  lemma ConnectWithoutOkStaysExpired(s: Session, loginResponse: Option<HttpResponse>, id: string, now: int)
    requires TimeoutExpired(s, now)
    requires loginResponse.Some? ==> loginResponse.value.status != StatusOk
    ensures ReadSessionId(AfterConnect(s, loginResponse, Some(id)), now) == Failure(TimeoutError)
  {
  }

  /** What may happen to a store between two reads. */
  datatype Event = Response(status: int, at: int) | SetId(id: string)

  function Apply(s: Session, e: Event): Session {
    match e
    case Response(status, at) => AfterResponse(s, status, at)
    case SetId(id) => WithSessionId(s, id)
  }

  /** The state after a sequence of events, in order. */
  function Replay(s: Session, events: seq<Event>): Session
    decreases |events|
  {
    if events == [] then s else Replay(Apply(s, events[0]), events[1..])
  }

  /**
    Whatever the order of responses and sets, the last success after them is
    the largest of its old value and the times of the 200 responses among them:
    it never decreases, and it only ever takes the time of a 200 response.
   */
  lemma {:induction false} ReplayLastSuccessIsMax(s: Session, events: seq<Event>)
    ensures Replay(s, events).lastSuccess >= s.lastSuccess
    ensures forall i :: 0 <= i < |events| && events[i].Response? && events[i].status == StatusOk ==>
                          Replay(s, events).lastSuccess >= events[i].at
    ensures Replay(s, events).lastSuccess == s.lastSuccess ||
            exists i :: 0 <= i < |events| && events[i] == Response(StatusOk, Replay(s, events).lastSuccess)
    ensures Replay(s, events).sessionTimeout == s.sessionTimeout
    decreases |events|
  {
    if events != [] {
      var s1 := Apply(s, events[0]);
      ReplayLastSuccessIsMax(s1, events[1..]);
      var r := Replay(s, events);
      assert r == Replay(s1, events[1..]);
      forall i | 0 <= i < |events| && events[i].Response? && events[i].status == StatusOk
        ensures r.lastSuccess >= events[i].at
      {
        if i > 0 {
          assert events[1..][i - 1] == events[i];
        }
      }
      if r.lastSuccess != s.lastSuccess {
        if r.lastSuccess == s1.lastSuccess {
          assert events[0] == Response(StatusOk, r.lastSuccess);
        } else {
          var j :| 0 <= j < |events[1..]| && events[1..][j] == Response(StatusOk, r.lastSuccess);
          assert events[j + 1] == Response(StatusOk, r.lastSuccess);
        }
      }
    }
  }

  /**
    However later events are ordered, a store whose id is set can be read at
    any time up to the timeout after any 200 response among them.
   */
  lemma ReadableAfterAnyOk(s: Session, events: seq<Event>, i: nat, now: int)
    requires i < |events| && events[i].Response? && events[i].status == StatusOk
    requires Replay(s, events).sessionId.Some?
    requires now <= events[i].at + s.sessionTimeout
    ensures ReadSessionId(Replay(s, events), now) == Success(Replay(s, events).sessionId.value)
  {
    ReplayLastSuccessIsMax(s, events);
  }

  /** The id after a sequence of events is the one the last set stored, or the old one if none did. */
  lemma {:induction false} ReplaySessionId(s: Session, events: seq<Event>)
    ensures (forall i :: 0 <= i < |events| ==> !events[i].SetId?) ==> Replay(s, events).sessionId == s.sessionId
    ensures forall i :: 0 <= i < |events| && events[i].SetId? &&
                        (forall j :: i < j < |events| ==> !events[j].SetId?) ==>
                          Replay(s, events).sessionId == Some(events[i].id)
    decreases |events|
  {
    if events != [] {
      var s1 := Apply(s, events[0]);
      ReplaySessionId(s1, events[1..]);
      forall i | 0 <= i < |events| && events[i].SetId? && (forall j :: i < j < |events| ==> !events[j].SetId?)
        ensures Replay(s, events).sessionId == Some(events[i].id)
      {
        if i > 0 {
          assert events[1..][i - 1] == events[i];
          forall j | i - 1 < j < |events[1..]| ensures !events[1..][j].SetId? {
            assert events[1..][j] == events[j + 1];
          }
        } else {
          forall j | 0 <= j < |events[1..]| ensures !events[1..][j].SetId? {
            assert events[1..][j] == events[j + 1];
          }
        }
      }
      if forall i :: 0 <= i < |events| ==> !events[i].SetId? {
        forall j | 0 <= j < |events[1..]| ensures !events[1..][j].SetId? {
          assert events[1..][j] == events[j + 1];
        }
      }
    }
  }

  /** The session guard, updated in place by its setter, its response hook and connect. */
  class ConnectionStorage {
    var sessionId: Option<string>
    var lastSuccess: int
    const sessionTimeout: int

    ghost function State(): Session
      reads this
    {
      Session(sessionId, lastSuccess, sessionTimeout)
    }

    constructor (sessionTimeout: int := DefaultSessionTimeout)
      ensures State() == Initial(sessionTimeout)
    {
      this.sessionTimeout := sessionTimeout;
      this.lastSuccess := 0;
      this.sessionId := None;
    }

    /** is_timeout_expired at time `now`. */
    method IsTimeoutExpired(now: int) returns (expired: bool)
      ensures expired == TimeoutExpired(State(), now)
    {
      expired := now - lastSuccess > sessionTimeout;
    }

    /** The session_id getter at time `now`. */
    method GetSessionId(now: int) returns (r: Result<string, StorageError>)
      ensures r == ReadSessionId(State(), now)
    {
      if sessionId.None? {
        return Failure(ConnectionAbortedError);
      }
      var expired := IsTimeoutExpired(now);
      if expired {
        return Failure(TimeoutError);
      }
      r := Success(sessionId.value);
    }

    /** The session_id setter. */
    method SetSessionId(id: string)
      modifies this
      ensures State() == WithSessionId(old(State()), id)
    {
      sessionId := Some(id);
    }

    /** response_hook, for a response with the given status seen at time `now`. */
    method ResponseHook(status: int, now: int)
      modifies this
      ensures State() == AfterResponse(old(State()), status, now)
    {
      if lastSuccess < now && status == StatusOk {
        lastSuccess := now;
      }
    }

    /**
      connect. `loginResponse` is the response the login collaborator receives
      over the hooked session (None if it fails before one arrives) and `login`
      its outcome: the id, or None when it raises, which propagates.
     */
    method Connect(loginResponse: Option<HttpResponse>, login: Option<string>) returns (connected: bool)
      modifies this
      ensures connected <==> login.Some?
      ensures State() == AfterConnect(old(State()), loginResponse, login)
    {
      if loginResponse.Some? {
        ResponseHook(loginResponse.value.status, loginResponse.value.at);
      }
      if login.None? {
        return false;
      }
      SetSessionId(login.value);
      connected := true;
    }
  }
}
