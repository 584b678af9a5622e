/** The table of connected users: one in-memory session per email, refreshed by the client's
    pings and persisted as a single-session row once it has been idle for more than two
    minutes. The clock is the parameter `now` (milliseconds); the ids `Guid.NewGuid` would
    make are parameters too, each one fresh. */
module SessionManager {
  import opened Wrappers
  import opened Database

  /** The idle limit of `HealthCheck`: two minutes, in milliseconds. */
  const IdleLimit: int := 120000

  datatype UserSession = UserSession(sessionStart: int, latestTimeAlive: int)

  /** A session the health check at `now` persists and removes: idle strictly longer than the limit. */
  predicate Idle(s: UserSession, now: int) {
    now - s.latestTimeAlive > IdleLimit
  }

  /** The sessions a health check at `now` keeps. */
  function Live(sessions: map<string, UserSession>, now: int): (r: map<string, UserSession>)
    ensures forall e :: e in r <==> e in sessions && !Idle(sessions[e], now)
    ensures forall e :: e in r ==> r[e] == sessions[e]
  {
    map e | e in sessions && !Idle(sessions[e], now) :: sessions[e]
  }

  /** The user exists and their sessions container is stored: `SaveUserSession` has somewhere to write. */
  predicate HasContainer(users: map<string, User>, containers: map<string, UserSessions>, email: string) {
    email in users && users[email].sessionsId in containers
  }

  /** The row a session is persisted as: started at its start, ended at its last ping. */
  function Record(id: string, s: UserSession): (r: SingleSession)
    ensures r.id == id && r.timeStarted == s.sessionStart && r.timeEnded == s.latestTimeAlive
  {
    SingleSession(id, s.sessionStart, s.latestTimeAlive)
  }

  /** The emails a health check at `now` persists a row for. */
  function Expired(sessions: map<string, UserSession>, users: map<string, User>,
                   containers: map<string, UserSessions>, now: int): (r: set<string>)
    ensures forall e :: e in r <==> e in sessions && Idle(sessions[e], now) && HasContainer(users, containers, e)
  {
    set e | e in sessions && Idle(sessions[e], now) && HasContainer(users, containers, e)
  }

  /** A health check keeps a session exactly when it is not idle, and never changes a kept one. */
  lemma HealthCheckKeepsActive(sessions: map<string, UserSession>, now: int, e: string)
    requires e in sessions
    ensures e in Live(sessions, now) <==> sessions[e].latestTimeAlive >= now - IdleLimit
    ensures e in Live(sessions, now) ==> Live(sessions, now)[e] == sessions[e]
  {
  }

  /** A session pinged at `now` survives every health check up to two minutes later. */
  lemma PingedSurvives(sessions: map<string, UserSession>, e: string, now: int, later: int)
    requires e in sessions && sessions[e].latestTimeAlive == now && later <= now + IdleLimit
    ensures e in Live(sessions, later)
  {
  }

  /** The in-memory sessions, the sessions containers and the single-session rows. */
  datatype Tables = Tables(sessions: map<string, UserSession>, containers: map<string, UserSessions>,
                           rows: map<string, SingleSession>)

  /** The health check's visit of `e`: an idle session is removed, and persisted under `id` when
      its user has a container; an active one is left alone. */
  function Expire(t: Tables, users: map<string, User>, e: string, now: int, id: string): Tables {
    if e !in t.sessions || !Idle(t.sessions[e], now) then t
    else if !HasContainer(users, t.containers, e) then t.(sessions := t.sessions - {e})
    else
      var c := users[e].sessionsId;
      Tables(t.sessions - {e},
             t.containers[c := t.containers[c].(sessionIds := t.containers[c].sessionIds + [id])],
             t.rows[id := Record(id, t.sessions[e])])
  }

  /** The health check visiting the emails of `order` in turn, `newId(e)` being the id of `e`'s row. */
  function Sweep(t: Tables, users: map<string, User>, order: seq<string>, now: int, newId: string -> string): Tables {
    if |order| == 0 then t
    else
      var e := order[|order| - 1];
      Expire(Sweep(t, users, order[..|order| - 1], now, newId), users, e, now, newId(e))
  }

  /** No email comes twice. */
  predicate NoRepeats(order: seq<string>) {
    forall i, j :: 0 <= i < j < |order| ==> order[i] != order[j]
  }

  /** Distinct emails get distinct, unused row ids. */
  ghost predicate FreshIds(t0: Tables, newId: string -> string) {
    (forall a, b :: a in t0.sessions && b in t0.sessions && a != b ==> newId(a) != newId(b)) &&
    (forall e :: e in t0.sessions ==> newId(e) !in t0.rows)
  }

  /** After visiting `seen`, exactly the idle visited sessions are gone; the rest are unchanged. */
  ghost predicate SessionsSwept(t0: Tables, t: Tables, seen: set<string>, now: int) {
    (forall e :: e in t.sessions <==> e in t0.sessions && (e !in seen || !Idle(t0.sessions[e], now))) &&
    (forall e :: e in t.sessions ==> t.sessions[e] == t0.sessions[e])
  }

  /** Containers are only appended to. */
  ghost predicate ContainersGrow(t0: Tables, t: Tables) {
    t.containers.Keys == t0.containers.Keys &&
    (forall c :: c in t0.containers ==> t0.containers[c].sessionIds <= t.containers[c].sessionIds)
  }

  /** Existing rows stay as they were. */
  ghost predicate RowsKept(t0: Tables, t: Tables) {
    forall id :: id in t0.rows ==> id in t.rows && t.rows[id] == t0.rows[id]
  }

  /** The ids of the emails not yet visited are unused. */
  ghost predicate IdsUnused(t0: Tables, t: Tables, seen: set<string>, newId: string -> string) {
    forall e :: e in t0.sessions && e !in seen ==> newId(e) !in t.rows
  }

  /** `e`'s row is stored under `id` and its user's container lists `id`. */
  ghost predicate Persisted(t: Tables, users: map<string, User>, e: string, id: string, s: UserSession) {
    e in users && id in t.rows && t.rows[id] == Record(id, s) &&
    users[e].sessionsId in t.containers && id in t.containers[users[e].sessionsId].sessionIds
  }

  /** Every visited expired session is persisted. */
  ghost predicate AllPersisted(t0: Tables, t: Tables, users: map<string, User>, seen: set<string>, now: int,
                               newId: string -> string) {
    forall e :: e in seen && e in Expired(t0.sessions, users, t0.containers, now) ==>
      Persisted(t, users, e, newId(e), t0.sessions[e])
  }

  /** Every new row is that of a visited expired session. */
  ghost predicate OnlyExpired(t0: Tables, t: Tables, users: map<string, User>, seen: set<string>, now: int,
                              newId: string -> string) {
    forall id :: id in t.rows ==>
      id in t0.rows || exists e :: e in seen && e in Expired(t0.sessions, users, t0.containers, now) && id == newId(e)
  }

  /** Everything the health check promises once it has visited `seen`. */
  ghost predicate Swept(t0: Tables, t: Tables, users: map<string, User>, seen: set<string>, now: int,
                        newId: string -> string) {
    SessionsSwept(t0, t, seen, now) && ContainersGrow(t0, t) && RowsKept(t0, t) && IdsUnused(t0, t, seen, newId) &&
    AllPersisted(t0, t, users, seen, now, newId) && OnlyExpired(t0, t, users, seen, now, newId)
  }

  lemma SessionsStep(t0: Tables, t: Tables, users: map<string, User>, seen: set<string>, e: string, now: int, id: string)
    requires SessionsSwept(t0, t, seen, now) && e in t0.sessions && e !in seen
    ensures SessionsSwept(t0, Expire(t, users, e, now, id), seen + {e}, now)
  {
  }

  lemma ContainersStep(t0: Tables, t: Tables, users: map<string, User>, e: string, now: int, id: string)
    requires ContainersGrow(t0, t)
    ensures ContainersGrow(t0, Expire(t, users, e, now, id))
  {
  }

  lemma RowsStep(t0: Tables, t: Tables, users: map<string, User>, seen: set<string>, e: string, now: int,
                 newId: string -> string)
    requires RowsKept(t0, t) && IdsUnused(t0, t, seen, newId) && e in t0.sessions && e !in seen
    requires FreshIds(t0, newId)
    ensures RowsKept(t0, Expire(t, users, e, now, newId(e)))
    ensures IdsUnused(t0, Expire(t, users, e, now, newId(e)), seen + {e}, newId)
  {
  }

  lemma PersistedStep(t0: Tables, t: Tables, users: map<string, User>, seen: set<string>, e: string, now: int,
                      newId: string -> string)
    requires SessionsSwept(t0, t, seen, now) && ContainersGrow(t0, t) && IdsUnused(t0, t, seen, newId)
    requires AllPersisted(t0, t, users, seen, now, newId) && e in t0.sessions && e !in seen
    ensures AllPersisted(t0, Expire(t, users, e, now, newId(e)), users, seen + {e}, now, newId)
  {
    var t' := Expire(t, users, e, now, newId(e));
    if Idle(t.sessions[e], now) && HasContainer(users, t.containers, e) {
      var ce := users[e].sessionsId;
      forall x | x in seen && x in Expired(t0.sessions, users, t0.containers, now)
        ensures Persisted(t', users, x, newId(x), t0.sessions[x])
      {
        assert Persisted(t, users, x, newId(x), t0.sessions[x]);
        var c := users[x].sessionsId;
        if c == ce {
          PrefixMember(t.containers[c].sessionIds, t'.containers[c].sessionIds, newId(x));
        }
      }
    } else {
      assert t'.rows == t.rows && t'.containers == t.containers;
    }
  }

  /** A list's members are members of every list it is a prefix of. */
  lemma PrefixMember<T>(a: seq<T>, b: seq<T>, x: T)
    requires a <= b && x in a
    ensures x in b
  {
    var i :| 0 <= i < |a| && a[i] == x;
    assert b[i] == x;
  }

  lemma OnlyExpiredStep(t0: Tables, t: Tables, users: map<string, User>, seen: set<string>, e: string, now: int,
                        newId: string -> string)
    requires SessionsSwept(t0, t, seen, now) && ContainersGrow(t0, t)
    requires OnlyExpired(t0, t, users, seen, now, newId) && e in t0.sessions && e !in seen
    ensures OnlyExpired(t0, Expire(t, users, e, now, newId(e)), users, seen + {e}, now, newId)
  {
  }

  /** The emails of a list. */
  function Seen(order: seq<string>): (r: set<string>)
    ensures forall e :: e in r <==> e in order
  {
    set e | e in order
  }

  /** Visiting the emails of `order`, each once, keeps every promise of the health check. */
  lemma {:induction false} SweepSwept(t0: Tables, users: map<string, User>, order: seq<string>, now: int,
                                      newId: string -> string)
    requires NoRepeats(order) && (forall e :: e in order ==> e in t0.sessions) && FreshIds(t0, newId)
    ensures Swept(t0, Sweep(t0, users, order, now, newId), users, Seen(order), now, newId)
  {
    if |order| > 0 {
      var n := |order| - 1;
      var e := order[n];
      var front := order[..n];
      assert forall x :: x in front ==> x in order;
      SweepSwept(t0, users, front, now, newId);
      var t := Sweep(t0, users, front, now, newId);
      assert Sweep(t0, users, order, now, newId) == Expire(t, users, e, now, newId(e));
      assert e !in Seen(front);
      assert Seen(order) == Seen(front) + {e} by {
        assert order == front + [e];
      }
      SessionsStep(t0, t, users, Seen(front), e, now, newId(e));
      ContainersStep(t0, t, users, e, now, newId(e));
      RowsStep(t0, t, users, Seen(front), e, now, newId);
      PersistedStep(t0, t, users, Seen(front), e, now, newId);
      OnlyExpiredStep(t0, t, users, Seen(front), e, now, newId);
    }
  }

  /** A health check over every connected email: exactly the idle sessions are gone and the
      others unchanged; each expired one (idle, with a user and a container) has its row and its
      container entry; old rows and container entries stay; no other row appears. */
  lemma HealthCheckSpec(t0: Tables, users: map<string, User>, order: seq<string>, now: int, newId: string -> string)
    requires NoRepeats(order) && (forall e :: e in order <==> e in t0.sessions) && FreshIds(t0, newId)
    ensures var t := Sweep(t0, users, order, now, newId);
      t.sessions == Live(t0.sessions, now) && ContainersGrow(t0, t) && RowsKept(t0, t) &&
      (forall e :: e in Expired(t0.sessions, users, t0.containers, now) ==> Persisted(t, users, e, newId(e), t0.sessions[e])) &&
      (forall id :: id in t.rows && id !in t0.rows ==>
        exists e :: e in Expired(t0.sessions, users, t0.containers, now) && id == newId(e))
  {
    var t := Sweep(t0, users, order, now, newId);
    SweepSwept(t0, users, order, now, newId);
    assert Seen(order) == t0.sessions.Keys;
    AllSeenLive(t0, t, now);
  }

  /** Once every email has been visited, the sessions left are the live ones. */
  lemma AllSeenLive(t0: Tables, t: Tables, now: int)
    requires SessionsSwept(t0, t, t0.sessions.Keys, now)
    ensures t.sessions == Live(t0.sessions, now)
  {
    assert t.sessions.Keys == Live(t0.sessions, now).Keys;
  }

  class SessionManager {
    const db: Database
    var sessions: map<string, UserSession>

    constructor(db: Database)
      ensures this.db == db && sessions == map[]
    {
      this.db := db;
      sessions := map[];
    }

    /** `CreateSessionsTable`: nothing for an unknown email; otherwise a new empty container is
        stored and the user's `SessionsId` points at it. */
    method CreateSessionsTable(email: string, id: string)
      requires db.Valid() && id !in db.userSessions
      modifies db`userSessions, db`users
      ensures db.Valid()
      ensures email !in old(db.users) ==> db.userSessions == old(db.userSessions) && db.users == old(db.users)
      ensures email in old(db.users) ==>
        db.userSessions == old(db.userSessions)[id := UserSessions(id, [])] &&
        db.users == old(db.users)[email := old(db.users)[email].(sessionsId := id)]
    {
      if email !in db.users {
        return;
      }
      db.userSessions := db.userSessions[id := UserSessions(id, [])];
      db.users := db.users[email := db.users[email].(sessionsId := id)];
    }

    /** `SaveUserSession`: nothing when the user or their container is missing; otherwise one
        row for the session is stored and its id goes to the end of the container. */
    method SaveUserSession(email: string, session: UserSession, id: string)
      requires db.Valid()
      modifies db`singleSessions, db`userSessions
      ensures db.Valid()
      ensures !HasContainer(db.users, old(db.userSessions), email) ==>
        db.singleSessions == old(db.singleSessions) && db.userSessions == old(db.userSessions)
      ensures HasContainer(db.users, old(db.userSessions), email) ==>
        var c := db.users[email].sessionsId;
        db.singleSessions == old(db.singleSessions)[id := Record(id, session)] &&
        db.userSessions == old(db.userSessions)[c := old(db.userSessions)[c].(sessionIds := old(db.userSessions)[c].sessionIds + [id])]
    {
      if email !in db.users {
        return;
      }
      var c := db.users[email].sessionsId;
      if c !in db.userSessions {
        return;
      }
      db.singleSessions := db.singleSessions[id := Record(id, session)];
      db.userSessions := db.userSessions[c := db.userSessions[c].(sessionIds := db.userSessions[c].sessionIds + [id])];
    }

    /** `AddSessionToDictionary`: only for an existing user, a session started and alive at
        `now`; `TryAdd` never replaces a session already there. */
    method AddSessionToDictionary(email: string, now: int)
      modifies this`sessions
      ensures email in db.users && email !in old(sessions) ==> sessions == old(sessions)[email := UserSession(now, now)]
      ensures !(email in db.users && email !in old(sessions)) ==> sessions == old(sessions)
    {
      if email !in db.users {
        return;
      }
      if email !in sessions {
        sessions := sessions[email := UserSession(now, now)];
      }
    }

    /** `UpdateSession`: an existing session only has its last ping moved to `now`; otherwise it
        is as `AddSessionToDictionary`. */
    method UpdateSession(email: string, now: int)
      modifies this`sessions
      ensures email in old(sessions) ==>
        sessions == old(sessions)[email := old(sessions)[email].(latestTimeAlive := now)]
      ensures email !in old(sessions) && email in db.users ==> sessions == old(sessions)[email := UserSession(now, now)]
      ensures email !in old(sessions) && email !in db.users ==> sessions == old(sessions)
    {
      if email in sessions {
        sessions := sessions[email := sessions[email].(latestTimeAlive := now)];
      } else {
        AddSessionToDictionary(email, now);
      }
    }

    /** The tables a health check reads and writes. */
    function State(): Tables
      reads this, db
    {
      Tables(sessions, db.userSessions, db.singleSessions)
    }

    /** `HealthCheck`, at one instant `now`, enumerating the dictionary in the order `order`:
        each email is visited once (see `Expire`); `newId(e)` is the `Guid` of `e`'s row.
        `HealthCheckSpec` says what this achieves. */
    method HealthCheck(now: int, order: seq<string>, newId: string -> string)
      requires db.Valid()
      requires NoRepeats(order) && forall e :: e in order <==> e in sessions
      modifies this`sessions, db`singleSessions, db`userSessions
      ensures db.Valid()
      ensures State() == Sweep(old(State()), db.users, order, now, newId)
    {
      ghost var t0 := State();
      var i := 0;
      while i < |order|
        invariant 0 <= i <= |order| && db.Valid()
        invariant State() == Sweep(t0, db.users, order[..i], now, newId)
      {
        assert order[..i + 1][..i] == order[..i];
        ExpireOne(order[i], now, newId(order[i]));
        i := i + 1;
      }
      assert order[..|order|] == order;
    }

    /** The visit of one email. */
    method ExpireOne(e: string, now: int, id: string)
      requires db.Valid()
      modifies this`sessions, db`singleSessions, db`userSessions
      ensures db.Valid()
      ensures State() == Expire(old(State()), db.users, e, now, id)
    {
      if e in sessions && Idle(sessions[e], now) {
        SaveUserSession(e, sessions[e], id);
        sessions := sessions - {e};
      }
    }

    /** `GetConnectedUsers`: every connected email, each once. */
    method GetConnectedUsers() returns (connected: seq<string>)
      ensures forall e :: e in connected <==> e in sessions
      ensures forall i, j :: 0 <= i < j < |connected| ==> connected[i] != connected[j]
    {
      connected := [];
      var remaining := sessions.Keys;
      while remaining != {}
        invariant remaining <= sessions.Keys
        invariant forall e :: e in connected <==> e in sessions && e !in remaining
        invariant forall i, j :: 0 <= i < j < |connected| ==> connected[i] != connected[j]
        decreases |remaining|
      {
        var e :| e in remaining;
        connected := connected + [e];
        remaining := remaining - {e};
      }
    }

    /** `GetConnectedUsernames`: the name of every connected email that has a user, one per
        session, and nothing else. */
    method GetConnectedUsernames() returns (names: seq<string>)
      ensures |names| <= |sessions|
      ensures forall e :: e in sessions && e in db.users ==> db.users[e].name in names
      ensures forall n :: n in names ==> exists e :: e in sessions && e in db.users && db.users[e].name == n
    {
      names := [];
      var remaining := sessions.Keys;
      while remaining != {}
        invariant remaining <= sessions.Keys && |names| + |remaining| <= |sessions|
        invariant forall e :: e in sessions && e !in remaining && e in db.users ==> db.users[e].name in names
        invariant forall n :: n in names ==> exists e :: e in sessions && e in db.users && db.users[e].name == n
        decreases |remaining|
      {
        var e :| e in remaining;
        if e in db.users {
          names := names + [db.users[e].name];
        }
        remaining := remaining - {e};
      }
    }
  }
}
