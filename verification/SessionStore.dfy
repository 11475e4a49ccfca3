/**
 The dashboard's session store: sessions expire after eight idle hours or a day, on access or
 when the reaper comes by.  Times are in seconds.
 */
module SessionStore {
  import opened Wrappers

  type Token = string

  const IDLE_LIMIT := 8 * 60 * 60
  const AGE_LIMIT := 24 * 60 * 60
  const TOKEN_LENGTH := 64

  datatype Session = Session(user: string, admin: bool, createdAt: int, lastSeenAt: int)

  type Sessions = map<Token, Session>

  predicate Expired(s: Session, now: int) {
    now - s.lastSeenAt > IDLE_LIMIT || now - s.createdAt > AGE_LIMIT
  }

  // ----------------------------------------------------------------- operations

  datatype Op =
    | Create(token: Token, user: string, admin: bool)
    | Get(token: Token)
    | Delete(token: Token)
    | Reap(readAt: int)

  datatype Event = Event(now: int, op: Op)

  function GetAnswer(m: Sessions, token: Token, now: int): Option<Session> {
    if |token| != TOKEN_LENGTH || token !in m || Expired(m[token], now) then None
    else Some(m[token].(lastSeenAt := now))
  }

  function AfterGet(m: Sessions, token: Token, now: int): Sessions {
    if |token| != TOKEN_LENGTH || token !in m then m
    else if Expired(m[token], now) then m - {token}
    else m[token := m[token].(lastSeenAt := now)]
  }

  function Reaped(m: Sessions, now: int): Sessions {
    map t | t in m && !Expired(m[t], now) :: m[t]
  }

  function Apply(m: Sessions, ev: Event): Sessions {
    match ev.op
    case Create(token, user, admin) => m[token := Session(user, admin, ev.now, ev.now)]
    case Get(token) => AfterGet(m, token, ev.now)
    case Delete(token) => m - {token}
    case Reap(readAt) => Reaped(m, readAt)
  }

  // The answers of the accesses in a run, in order.
  function Answers(m: Sessions, evs: seq<Event>): seq<Option<Session>>
    decreases |evs|
  {
    if evs == [] then []
    else
      var rest := Answers(Apply(m, evs[0]), evs[1..]);
      if evs[0].op.Get? then [GetAnswer(m, evs[0].op.token, evs[0].now)] + rest else rest
  }

  function WithoutReaping(evs: seq<Event>): seq<Event> {
    if evs == [] then []
    else if evs[0].op.Reap? then WithoutReaping(evs[1..])
    else [evs[0]] + WithoutReaping(evs[1..])
  }

  // The clock does not go back; a reaper has read it at the latest when it gets the lock.
  predicate Legal(start: int, evs: seq<Event>)
    decreases |evs|
  {
    evs == [] ||
    (start <= evs[0].now && (evs[0].op.Reap? ==> evs[0].op.readAt <= evs[0].now) && Legal(evs[0].now, evs[1..]))
  }

  // --------------------------------------------------- reaping is unobservable

  // Two stores that differ only in sessions that have expired.
  ghost predicate Alike(a: Sessions, b: Sessions, now: int) {
    forall t :: (t in a || t in b) ==>
      if t in a && t in b then a[t] == b[t] else if t in a then Expired(a[t], now) else Expired(b[t], now)
  }

  lemma StepAlike(a: Sessions, b: Sessions, start: int, ev: Event)
    requires Alike(a, b, start) && start <= ev.now && !ev.op.Reap?
    ensures Alike(Apply(a, ev), Apply(b, ev), ev.now)
    ensures ev.op.Get? ==> GetAnswer(a, ev.op.token, ev.now) == GetAnswer(b, ev.op.token, ev.now)
  {
  }

  lemma ReapAlike(a: Sessions, b: Sessions, start: int, now: int, readAt: int)
    requires Alike(a, b, start) && start <= now && readAt <= now
    ensures Alike(Reaped(a, readAt), b, now)
  {
  }

  lemma {:induction false} RunAlike(a: Sessions, b: Sessions, start: int, evs: seq<Event>)
    requires Alike(a, b, start) && Legal(start, evs)
    ensures Answers(a, evs) == Answers(b, WithoutReaping(evs))
    decreases |evs|
  {
    if evs != [] {
      var ev, rest := evs[0], evs[1..];
      if ev.op.Reap? {
        ReapAlike(a, b, start, ev.now, ev.op.readAt);
        RunAlike(Apply(a, ev), b, ev.now, rest);
      } else {
        StepAlike(a, b, start, ev);
        RunAlike(Apply(a, ev), Apply(b, ev), ev.now, rest);
        assert ([ev] + WithoutReaping(rest))[1..] == WithoutReaping(rest);
      }
    }
  }

  // Whenever the reaper runs, with however old a clock reading, every access is answered as
  // if it never ran.
  lemma ReapingUnobservable(m: Sessions, start: int, evs: seq<Event>)
    requires Legal(start, evs)
    ensures Answers(m, evs) == Answers(m, WithoutReaping(evs))
  {
    RunAlike(m, m, start, evs);
  }

  // --------------------------------------------------------- how long a session lasts

  function Run(m: Sessions, evs: seq<Event>): Sessions
    decreases |evs|
  {
    if evs == [] then m else Run(Apply(m, evs[0]), evs[1..])
  }

  // When the session was last used, if it was used at `last` before these events.
  function LastUse(token: Token, last: int, evs: seq<Event>): int
    decreases |evs|
  {
    if evs == [] then last else LastUse(token, if evs[0].op == Get(token) then evs[0].now else last, evs[1..])
  }

  // Nobody logs out or in again with this token, and it is never left alone for more than eight
  // hours, nor used when more than a day old.
  predicate InUse(token: Token, createdAt: int, last: int, evs: seq<Event>)
    decreases |evs|
  {
    evs == [] ||
    (&& evs[0].now - last <= 28_800 && evs[0].now - createdAt <= 86_400
     && evs[0].op != Delete(token) && !(evs[0].op.Create? && evs[0].op.token == token)
     && InUse(token, createdAt, if evs[0].op == Get(token) then evs[0].now else last, evs[1..]))
  }

  lemma {:induction false} StaysInUse(m: Sessions, token: Token, start: int, evs: seq<Event>)
    requires |token| == 64 && token in m && Legal(start, evs)
    requires InUse(token, m[token].createdAt, m[token].lastSeenAt, evs)
    ensures token in Run(m, evs)
    ensures Run(m, evs)[token] == m[token].(lastSeenAt := LastUse(token, m[token].lastSeenAt, evs))
    decreases |evs|
  {
    if evs != [] {
      StaysInUse(Apply(m, evs[0]), token, evs[0].now, evs[1..]);
    }
  }

  // A session that has been used at least every eight hours answers until it has been left alone
  // for more than eight hours or is more than a day old, and then no more; whatever happens to
  // other sessions and whenever the reaper runs.
  lemma SessionLastsExactly(m: Sessions, token: Token, user: string, admin: bool, createdAt: int, evs: seq<Event>,
                            now: int)
    requires |token| == 64 && Legal(createdAt, evs) && InUse(token, createdAt, createdAt, evs)
    ensures var store := Run(Apply(m, Event(createdAt, Create(token, user, admin))), evs);
      GetAnswer(store, token, now) ==
        if now - LastUse(token, createdAt, evs) <= 28_800 && now - createdAt <= 86_400
        then Some(Session(user, admin, createdAt, now)) else None
  {
    StaysInUse(Apply(m, Event(createdAt, Create(token, user, admin))), token, createdAt, evs);
  }

  // ------------------------------------------------------------------- the store

  class Store {
    var sessions: Sessions

    constructor ()
      ensures sessions == map[]
    {
      sessions := map[];
    }

    method CreateSession(token: Token, user: string, admin: bool, now: int)
      modifies this
      ensures sessions == Apply(old(sessions), Event(now, Create(token, user, admin)))
    {
      sessions := sessions[token := Session(user, admin, now, now)];
    }

    // Looks a session up and refreshes it; an expired one is removed on the way.
    method GetSession(token: Token, now: int) returns (session: Option<Session>)
      modifies this
      ensures sessions == Apply(old(sessions), Event(now, Get(token)))
      ensures session == GetAnswer(old(sessions), token, now)
    {
      if |token| != TOKEN_LENGTH || token !in sessions {
        return None;
      }
      var s := sessions[token];
      if now - s.lastSeenAt > IDLE_LIMIT || now - s.createdAt > AGE_LIMIT {
        sessions := sessions - {token};
        return None;
      }
      s := s.(lastSeenAt := now);
      sessions := sessions[token := s];
      return Some(s);
    }

    method DeleteSession(token: Token)
      modifies this
      ensures sessions == old(sessions) - {token}
    {
      sessions := sessions - {token};
    }

    method Reap(now: int)
      modifies this
      ensures sessions == Reaped(old(sessions), now)
    {
      var todo := sessions.Keys;
      while todo != {}
        invariant todo <= sessions.Keys <= old(sessions).Keys
        invariant forall t :: t in old(sessions) && t !in todo ==> (t in sessions <==> !Expired(old(sessions)[t], now))
        invariant forall t :: t in sessions ==> sessions[t] == old(sessions)[t]
        decreases |todo|
      {
        var t :| t in todo;
        todo := todo - {t};
        var s := sessions[t];
        if now - s.lastSeenAt > IDLE_LIMIT || now - s.createdAt > AGE_LIMIT {
          sessions := sessions - {t};
        }
      }
    }
  }
}
