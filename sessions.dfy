/**
 * The session table of the relay (session-server/src/session.rs): sessions
 * by id, and the HID client each session drives mapped back to the session,
 * with at most one session per HID client.
 *
 * The wall clock is the `now` parameter of the operations that read it, and
 * the fresh v4 UUID of a new session is supplied by the caller.
 */
module Sessions {
  import opened Wrappers
  import opened Protocol

  /** `chrono::Duration::minutes(1)` in the nanoseconds of `DateTime`. */
  const NanosPerMinute: int := 60_000_000_000

  datatype Session = Session(
    id: Uuid,
    commanderId: string,
    hidClientId: string,
    createdAt: DateTime,
    lastActivity: DateTime)

  /** `Session::new`: a session whose activity clock starts at its creation. */
  function NewSession(id: Uuid, commanderId: string, hidClientId: string, now: DateTime): (s: Session)
    ensures s.id == id && s.commanderId == commanderId && s.hidClientId == hidClientId
    ensures s.createdAt == now && s.lastActivity == s.createdAt
  {
    Session(id, commanderId, hidClientId, now, now)
  }

  /** `Session::update_activity`: only the activity clock moves. */
  function UpdateActivity(s: Session, now: DateTime): (t: Session)
    ensures t.lastActivity == now
    ensures t.id == s.id && t.commanderId == s.commanderId && t.hidClientId == s.hidClientId
    ensures t.createdAt == s.createdAt
  {
    s.(lastActivity := now)
  }

  /** `timeout_mins as i64`: the unsigned bits read as a two's-complement number. */
  function AsI64(n: u64): (m: int)
    ensures -0x8000_0000_0000_0000 <= m < 0x8000_0000_0000_0000
    ensures (m - n as int) % 0x1_0000_0000_0000_0000 == 0
    ensures n as int < 0x8000_0000_0000_0000 <==> m >= 0
  {
    if n as int < 0x8000_0000_0000_0000 then n as int else n as int - 0x1_0000_0000_0000_0000
  }

  /**
   * `Session::is_expired`: idle for strictly longer than the timeout, read
   * as a signed number of minutes. Below 2^63 minutes that is the timeout
   * as given; from 2^63 on the cast turns it negative, and every session
   * that is not dated in the future counts as expired.
   */
  predicate IsExpired(s: Session, timeoutMins: u64, now: DateTime)
    ensures timeoutMins as int < 0x8000_0000_0000_0000 ==>
      (IsExpired(s, timeoutMins, now) <==> now - s.lastActivity > timeoutMins as int * NanosPerMinute)
    ensures timeoutMins as int >= 0x8000_0000_0000_0000 && now >= s.lastActivity ==> IsExpired(s, timeoutMins, now)
  {
    now - s.lastActivity > AsI64(timeoutMins) * NanosPerMinute
  }

  /**
   * A session touched at `now` is not expired at `now` exactly when the
   * timeout survives the signed cast.
   */
  lemma TouchedIsNotExpired(s: Session, timeoutMins: u64, now: DateTime)
    ensures !IsExpired(UpdateActivity(s, now), timeoutMins, now) <==> timeoutMins as int < 0x8000_0000_0000_0000
  {
  }

  /** Once expired, a session stays expired as the clock moves on. */
  lemma ExpiryPersists(s: Session, timeoutMins: u64, now: DateTime, later: DateTime)
    requires IsExpired(s, timeoutMins, now) && now <= later
    ensures IsExpired(s, timeoutMins, later)
  {
  }

  /**
   * The two maps of the manager are mutual inverses: every session is filed
   * under its own id, and a HID client maps to a session exactly when that
   * session drives it.
   */
  ghost predicate Mirrored(sessions: map<Uuid, Session>, clientSessions: map<string, Uuid>) {
    && (forall id :: id in sessions ==> sessions[id].id == id)
    && (forall c :: c in clientSessions ==>
          clientSessions[c] in sessions && sessions[clientSessions[c]].hidClientId == c)
    && (forall id :: id in sessions ==>
          sessions[id].hidClientId in clientSessions && clientSessions[sessions[id].hidClientId] == id)
  }

  /** Mirrored maps pair each HID client with one session. */
  lemma OneSessionPerClient(sessions: map<Uuid, Session>, clientSessions: map<string, Uuid>, a: Uuid, b: Uuid)
    requires Mirrored(sessions, clientSessions)
    requires a in sessions && b in sessions && sessions[a].hidClientId == sessions[b].hidClientId
    ensures a == b
  {
  }

  /** Mirrored maps have as many HID client entries as sessions. */
  lemma {:induction false} MirroredSameSize(sessions: map<Uuid, Session>, clientSessions: map<string, Uuid>)
    requires Mirrored(sessions, clientSessions)
    ensures |sessions| == |clientSessions|
    decreases |sessions|
  {
    if sessions != map[] {
      var id :| id in sessions;
      var c := sessions[id].hidClientId;
      var s', c' := sessions - {id}, clientSessions - {c};
      assert s'.Keys == sessions.Keys - {id};
      assert c'.Keys == clientSessions.Keys - {c};
      MirroredSameSize(s', c');
    } else {
      assert forall c :: c !in clientSessions;
    }
  }

  /** Whether the sweep finds session `id` expired, at the time it reads on visiting it. */
  predicate ExpiredAt(sessions: map<Uuid, Session>, id: Uuid, timeoutMins: u64, clock: Uuid -> DateTime)
    requires id in sessions
  {
    IsExpired(sessions[id], timeoutMins, clock(id))
  }

  /**
   * The sessions a sweep keeps; `clock(id)` is the time read when the
   * sweep visits session `id`.
   */
  function Survivors(sessions: map<Uuid, Session>, timeoutMins: u64, clock: Uuid -> DateTime): map<Uuid, Session> {
    map id | id in sessions && !ExpiredAt(sessions, id, timeoutMins, clock) :: sessions[id]
  }

  /** The client entries that still point at a kept session. */
  function ClientsOf(clientSessions: map<string, Uuid>, sessions: map<Uuid, Session>): map<string, Uuid> {
    map c | c in clientSessions && clientSessions[c] in sessions :: clientSessions[c]
  }

  /** The sessions left while the ids in `pending` are still to be visited by a sweep. */
  ghost function Swept(sessions: map<Uuid, Session>, pending: set<Uuid>, timeoutMins: u64, clock: Uuid -> DateTime): map<Uuid, Session> {
    map id | id in sessions && (id in pending || !ExpiredAt(sessions, id, timeoutMins, clock)) :: sessions[id]
  }

  /** Visiting one id removes it exactly when its session has expired. */
  lemma SweepVisit(sessions: map<Uuid, Session>, pending: set<Uuid>, timeoutMins: u64, clock: Uuid -> DateTime, id: Uuid)
    requires id in pending && pending <= sessions.Keys
    ensures Swept(sessions, pending - {id}, timeoutMins, clock)
         == if ExpiredAt(sessions, id, timeoutMins, clock) then Swept(sessions, pending, timeoutMins, clock) - {id}
            else Swept(sessions, pending, timeoutMins, clock)
  {
  }

  /**
   * The sessions returned so far: once each, exactly the expired ones among
   * the visited ids.
   */
  ghost predicate Reported(expired: seq<Session>, sessions: map<Uuid, Session>, pending: set<Uuid>,
                           timeoutMins: u64, clock: Uuid -> DateTime) {
    && (forall s :: s in expired <==>
          s.id in sessions && s.id !in pending && sessions[s.id] == s && ExpiredAt(sessions, s.id, timeoutMins, clock))
    && (forall i, j :: 0 <= i < j < |expired| ==> expired[i].id != expired[j].id)
  }

  /** Visiting one id reports its session exactly when it has expired. */
  lemma ReportVisit(expired: seq<Session>, sessions: map<Uuid, Session>, pending: set<Uuid>,
                    timeoutMins: u64, clock: Uuid -> DateTime, id: Uuid)
    requires id in pending && pending <= sessions.Keys && sessions[id].id == id
    requires Reported(expired, sessions, pending, timeoutMins, clock)
    ensures ExpiredAt(sessions, id, timeoutMins, clock) ==>
      Reported(expired + [sessions[id]], sessions, pending - {id}, timeoutMins, clock)
    ensures !ExpiredAt(sessions, id, timeoutMins, clock) ==>
      Reported(expired, sessions, pending - {id}, timeoutMins, clock)
  {
    if ExpiredAt(sessions, id, timeoutMins, clock) {
      var e := expired + [sessions[id]];
      assert forall s :: s in e <==> s in expired || s == sessions[id];
      forall i, j | 0 <= i < j < |e|
        ensures e[i].id != e[j].id
      {
        if j == |expired| {
          assert e[i] in expired;
        }
      }
    }
  }

  /** A map whose entries all appear, unchanged, in `sessions`. */
  predicate SubMap(kept: map<Uuid, Session>, sessions: map<Uuid, Session>) {
    forall id :: id in kept ==> id in sessions && kept[id] == sessions[id]
  }

  /** Dropping a kept session drops exactly its HID client's entry. */
  lemma DropClient(sessions: map<Uuid, Session>, clientSessions: map<string, Uuid>, kept: map<Uuid, Session>, id: Uuid)
    requires Mirrored(sessions, clientSessions) && SubMap(kept, sessions) && id in kept
    ensures ClientsOf(clientSessions, kept - {id}) == ClientsOf(clientSessions, kept) - {kept[id].hidClientId}
  {
  }

  /** Keeping part of mirrored maps, with the client entries that point into it, keeps them mirrored. */
  lemma SweptMirrored(sessions: map<Uuid, Session>, clientSessions: map<string, Uuid>, kept: map<Uuid, Session>)
    requires Mirrored(sessions, clientSessions) && SubMap(kept, sessions)
    ensures Mirrored(kept, ClientsOf(clientSessions, kept))
  {
  }

  /** The error `create_session` reports for a HID client already in a session. */
  function AlreadyInSession(hidClientId: string): string {
    "HID client " + hidClientId + " is already in a session"
  }

  class SessionManager {
    var sessions: map<Uuid, Session>
    var clientSessions: map<string, Uuid>

    ghost predicate Valid()
      reads this
    {
      Mirrored(sessions, clientSessions)
    }

    /** `SessionManager::new`: no sessions. */
    constructor ()
      ensures Valid() && sessions == map[] && clientSessions == map[]
    {
      sessions := map[];
      clientSessions := map[];
    }

    /**
     * `create_session`: refuses a HID client that already has a session,
     * changing nothing; otherwise files a new session under `freshId`.
     */
    method CreateSession(commanderId: string, hidClientId: string, freshId: Uuid, now: DateTime)
      returns (r: Result<Uuid, string>)
      requires Valid()
      requires freshId !in sessions
      modifies this
      ensures Valid()
      ensures hidClientId in old(clientSessions) ==>
        && r == Err(AlreadyInSession(hidClientId))
        && sessions == old(sessions) && clientSessions == old(clientSessions)
      ensures hidClientId !in old(clientSessions) ==>
        && r == Ok(freshId)
        && sessions == old(sessions)[freshId := NewSession(freshId, commanderId, hidClientId, now)]
        && clientSessions == old(clientSessions)[hidClientId := freshId]
        && |sessions| == |old(sessions)| + 1
    {
      if hidClientId in clientSessions {
        return Err(AlreadyInSession(hidClientId));
      }
      var session := NewSession(freshId, commanderId, hidClientId, now);
      sessions := sessions[freshId := session];
      clientSessions := clientSessions[hidClientId := freshId];
      r := Ok(freshId);
    }

    /**
     * `end_session`: removes a present session from both maps and returns
     * it; an absent id changes nothing, so ending twice is ending once.
     */
    method EndSession(sessionId: Uuid) returns (r: Option<Session>)
      requires Valid()
      modifies this
      ensures Valid()
      ensures sessionId !in sessions
      ensures sessionId in old(sessions) ==>
        && r == Some(old(sessions)[sessionId])
        && sessions == old(sessions) - {sessionId}
        && clientSessions == old(clientSessions) - {old(sessions)[sessionId].hidClientId}
      ensures sessionId !in old(sessions) ==>
        r == None && sessions == old(sessions) && clientSessions == old(clientSessions)
    {
      if sessionId in sessions {
        var session := sessions[sessionId];
        sessions := sessions - {sessionId};
        clientSessions := clientSessions - {session.hidClientId};
        r := Some(session);
      } else {
        r := None;
      }
    }

    /** `get_session`: the session filed under the id, if any. */
    function GetSession(sessionId: Uuid): (r: Option<Session>)
      requires Valid()
      reads this
      ensures r.Some? <==> sessionId in sessions
      ensures r.Some? ==> r.value.id == sessionId && r.value in sessions.Values
    {
      if sessionId in sessions then Some(sessions[sessionId]) else None
    }

    /**
     * `get_session_by_client`: found exactly when the client is mapped, and
     * then it is the session driving that client.
     */
    function GetSessionByClient(clientId: string): (r: Option<Session>)
      requires Valid()
      reads this
      ensures r.Some? <==> clientId in clientSessions
      ensures r.Some? ==> r.value.hidClientId == clientId && r.value.id in sessions && sessions[r.value.id] == r.value
    {
      if clientId in clientSessions && clientSessions[clientId] in sessions
      then Some(sessions[clientSessions[clientId]])
      else None
    }

    /** `list_sessions`: every stored session (in no particular order). */
    function ListSessions(): (all: set<Session>)
      requires Valid()
      reads this
      ensures forall s :: s in all <==> s.id in sessions && sessions[s.id] == s
    {
      sessions.Values
    }

    /**
     * `update_session_activity`: moves a present session's activity clock
     * to `now`; a missing id is silently ignored.
     */
    method UpdateSessionActivity(sessionId: Uuid, now: DateTime)
      requires Valid()
      modifies this
      ensures Valid()
      ensures clientSessions == old(clientSessions)
      ensures sessionId in old(sessions) ==>
        sessions == old(sessions)[sessionId := UpdateActivity(old(sessions)[sessionId], now)]
      ensures sessionId !in old(sessions) ==> sessions == old(sessions)
    {
      if sessionId in sessions {
        sessions := sessions[sessionId := UpdateActivity(sessions[sessionId], now)];
      }
    }

    /**
     * `cleanup_expired_sessions`: removes, and returns once each, exactly
     * the sessions idle for longer than the timeout, drops their client
     * entries and keeps every other session as it was. `is_expired` reads
     * the clock once per session; `clock(id)` is what it reads for `id`.
     */
    method CleanupExpiredSessions(timeoutMins: u64, clock: Uuid -> DateTime) returns (expired: seq<Session>)
      requires Valid()
      modifies this
      ensures Valid()
      ensures sessions == Survivors(old(sessions), timeoutMins, clock)
      ensures clientSessions == ClientsOf(old(clientSessions), sessions)
      ensures forall s :: s in expired <==>
        s.id in old(sessions) && old(sessions)[s.id] == s && ExpiredAt(old(sessions), s.id, timeoutMins, clock)
      ensures forall i, j :: 0 <= i < j < |expired| ==> expired[i].id != expired[j].id
    {
      ghost var s0, c0 := sessions, clientSessions;
      var pending := sessions.Keys;
      expired := [];
      while pending != {}
        invariant pending <= s0.Keys
        invariant sessions == Swept(s0, pending, timeoutMins, clock)
        invariant clientSessions == ClientsOf(c0, sessions)
        invariant Reported(expired, s0, pending, timeoutMins, clock)
        decreases pending
      {
        var id :| id in pending;
        var session := sessions[id];
        SweepVisit(s0, pending, timeoutMins, clock, id);
        ReportVisit(expired, s0, pending, timeoutMins, clock, id);
        if IsExpired(session, timeoutMins, clock(id)) {
          DropClient(s0, c0, sessions, id);
          clientSessions := clientSessions - {session.hidClientId};
          expired := expired + [session];
          sessions := sessions - {id};
        }
        pending := pending - {id};
      }
      assert sessions == Survivors(s0, timeoutMins, clock);
      SweptMirrored(s0, c0, sessions);
    }
  }
}
