/** app/jwxt_state.py, `SessionStore`: sessions in memory with an index by user name. */
module SessionStore {
  import opened PyText

  type Sid = nat
  type User = string
  type Hash = string
  type Payload = nat

  datatype Session = Session(user: User, cookies: Payload, portal: Payload, at: int, exp: int, pwdHash: Option<Hash>)

  type Sessions = map<Sid, Session>

  // ----- the index -----

  ghost function OfUser(sessions: Sessions, user: User): set<Sid> {
    set sid | sid in sessions && sessions[sid].user == user
  }

  /** The index is the inverse image of the sessions by user name, without empty sets. */
  ghost predicate IsIndex(byUser: map<User, set<Sid>>, sessions: Sessions) {
    && (forall user | user in byUser :: byUser[user] == OfUser(sessions, user) && byUser[user] != {})
    && (forall sid | sid in sessions :: sessions[sid].user in byUser)
  }

  /** An index is determined by its sessions. */
  lemma {:induction false} IndexIsUnique(a: map<User, set<Sid>>, b: map<User, set<Sid>>, sessions: Sessions)
    requires IsIndex(a, sessions) && IsIndex(b, sessions)
    ensures a == b
  {
  }

  lemma {:induction false} IndexAfterDrop(byUser: map<User, set<Sid>>, sessions: Sessions, sid: Sid)
    requires IsIndex(byUser, sessions) && sid in sessions
    ensures var user := sessions[sid].user;
            user in byUser
            && IsIndex(if byUser[user] == {sid} then byUser - {user} else byUser[user := byUser[user] - {sid}], sessions - {sid})
  {
  }

  lemma {:induction false} IndexAfterAdd(byUser: map<User, set<Sid>>, sessions: Sessions, sid: Sid, s: Session)
    requires IsIndex(byUser, sessions) && sid !in sessions
    ensures IsIndex(byUser[s.user := (if s.user in byUser then byUser[s.user] else {}) + {sid}], sessions[sid := s])
  {
  }

  lemma {:induction false} IndexAfterChange(byUser: map<User, set<Sid>>, sessions: Sessions, sid: Sid, s: Session)
    requires IsIndex(byUser, sessions) && sid in sessions && s.user == sessions[sid].user
    ensures IsIndex(byUser, sessions[sid := s])
  {
  }

  // ----- expiry and eviction -----

  predicate IsExpired(s: Session, now: int) {
    s.exp < now
  }

  ghost function Live(sessions: Sessions, now: int): Sessions {
    map sid | sid in sessions && !IsExpired(sessions[sid], now) :: sessions[sid]
  }

  lemma {:induction false} SweptIs(sessions: Sessions, expired: set<Sid>, now: int)
    requires forall sid :: sid in expired <==> sid in sessions && IsExpired(sessions[sid], now)
    ensures sessions - expired == Live(sessions, now)
    ensures |sessions - expired| == |sessions| - |expired|
  {
  }

  lemma {:induction false} DropOneMore(before: Sessions, expired: set<Sid>, todo: set<Sid>, sid: Sid)
    requires sid in todo && todo <= expired
    ensures before - (expired - todo) - {sid} == before - (expired - (todo - {sid}))
  {
  }

  lemma {:induction false} SizeAfterAdd(sessions: Sessions, sid: Sid, s: Session)
    requires sid !in sessions
    ensures |sessions[sid := s]| == |sessions| + 1
  {
  }

  lemma {:induction false} SizeAfterDrop(sessions: Sessions, sid: Sid)
    ensures |sessions - {sid}| == |sessions| - (if sid in sessions then 1 else 0)
  {
  }

  /** The first of the earliest created: the newcomer `last` only if every other is created later. */
  ghost predicate IsOldest(sessions: Sessions, sid: Sid, last: Sid) {
    && sid in sessions
    && forall other | other in sessions && other != sid ::
         if sid == last then sessions[sid].at < sessions[other].at else sessions[sid].at <= sessions[other].at
  }

  lemma {:induction false} OldestExists(sessions: Sessions, last: Sid) returns (sid: Sid)
    requires sessions != map[]
    ensures IsOldest(sessions, sid, last)
    decreases |sessions|
  {
    assert |sessions| != 0;
    var e := Element(sessions.Keys);
    var rest := sessions - {e};
    if rest == map[] {
      sid := e;
      assert forall other | other in sessions :: other == e || other in rest;
    } else {
      assert |rest| == |sessions| - 1 by {
        assert rest.Keys == sessions.Keys - {e};
      }
      var low := OldestExists(rest, last);
      sid := if sessions[e].at < sessions[low].at || (sessions[e].at == sessions[low].at && low == last) then e else low;
      forall other | other in sessions && other != sid
        ensures if sid == last then sessions[sid].at < sessions[other].at else sessions[sid].at <= sessions[other].at
      {
        assert other == e || other in rest;
      }
    }
  }

  /** What `create` leaves: the live sessions and the new one, without an oldest if they are too many. */
  ghost predicate Created(before: Sessions, after: Sessions, sid: Sid, s: Session, max: nat, now: int) {
    var all := Live(before, now)[sid := s];
    if |all| <= max then after == all
    else exists oldest :: IsOldest(all, oldest, sid) && after == all - {oldest}
  }

  /** The new session survives its creation unless every other was created later. */
  lemma {:induction false} NewSessionStays(before: Sessions, after: Sessions, sid: Sid, s: Session, max: nat, now: int)
    requires Created(before, after, sid, s, max, now) && max >= 1 && sid !in before
    requires forall other | other in before :: before[other].at <= s.at
    ensures sid in after && after[sid] == s
  {
  }

  // ----- reuse -----

  predicate IsReusable(s: Session, user: User, hash: Hash, maxAge: int, now: int) {
    s.user == user && s.pwdHash == Some(hash) && s.exp > now && now - s.at <= maxAge && s.at > -1
  }

  /** What a scan of all sessions would accept. */
  ghost function Reusable(sessions: Sessions, user: User, hash: Hash, maxAge: int, now: int): set<Sid> {
    set sid | sid in sessions && IsReusable(sessions[sid], user, hash, maxAge, now)
  }

  /** The sessions of the user found through the index are all a scan could accept; sweeping first loses none. */
  lemma {:induction false} ReusableIsMine(byUser: map<User, set<Sid>>, before: Sessions, sessions: Sessions,
                                          user: User, hash: Hash, maxAge: int, now: int)
    requires IsIndex(byUser, sessions) && sessions == Live(before, now)
    ensures var mine := if user in byUser then byUser[user] else {};
            && (forall sid | sid in mine :: sid in sessions && sessions[sid].user == user)
            && (forall sid | sid in sessions :: sid in before && before[sid] == sessions[sid])
            && (forall sid :: sid in Reusable(before, user, hash, maxAge, now) <==>
                  sid in mine && IsReusable(sessions[sid], user, hash, maxAge, now))
  {
  }

  ghost predicate IsNewest(sessions: Sessions, found: set<Sid>, best: Option<Sid>)
    requires forall sid | sid in found :: sid in sessions
  {
    match best
    case None => found == {}
    case Some(sid) => sid in found && forall other | other in found :: sessions[other].at <= sessions[sid].at
  }

  /**
   * Someone who logged in finds a session again with the same password, for as long as it lives and is not too old, and one no
   * older than his own; and never a session of another user or password.
   */
  lemma {:induction false} LoginIsReused(before: Sessions, after: Sessions, sid: Sid, s: Session, max: nat, login: int,
                                         hash: Hash, maxAge: int, now: int, best: Option<Sid>)
    requires Created(before, after, sid, s, max, login) && max >= 1 && sid !in before
    requires s.at == login >= 0 && s.pwdHash == Some(hash) && forall other | other in before :: before[other].at <= login
    requires IsNewest(after, Reusable(after, s.user, hash, maxAge, now), best)
    ensures now < s.exp && now - login <= maxAge ==> best.Some? && after[best.value].at >= login
    ensures best.Some? ==>
              best.value in after && after[best.value].user == s.user && after[best.value].pwdHash == Some(hash)
              && now < after[best.value].exp && now - after[best.value].at <= maxAge
  {
    NewSessionStays(before, after, sid, s, max, login);
    hide Created;
    assert now < s.exp && now - login <= maxAge ==> sid in Reusable(after, s.user, hash, maxAge, now);
  }

  // ----- the class -----

  class Store {
    const ttl: int
    const maxSessions: nat
    const loginReuse: bool
    var sessions: Sessions
    var byUser: map<User, set<Sid>>

    ghost predicate Valid()
      reads this
    {
      maxSessions >= 1 && |sessions| <= maxSessions && IsIndex(byUser, sessions)
    }

    constructor (ttl: int, max: int, reuse: bool)
      ensures Valid() && sessions == map[]
      ensures this.ttl == (if ttl > 60 then ttl else 60) && maxSessions as int == (if max > 1 then max else 1) && loginReuse == reuse
    {
      this.ttl := if ttl > 60 then ttl else 60;
      maxSessions := if max > 1 then max else 1;
      loginReuse := reuse;
      sessions, byUser := map[], map[];
    }

    /** `_drop`; of the invariant it needs and keeps only the index. */
    method Drop(sid: Sid)
      requires IsIndex(byUser, sessions)
      modifies this`sessions, this`byUser
      ensures IsIndex(byUser, sessions) && sessions == old(sessions) - {sid}
    {
      if sid !in sessions {
        return;
      }
      IndexAfterDrop(byUser, sessions, sid);
      var user := sessions[sid].user;
      sessions := sessions - {sid};
      if user in byUser {
        var sids := byUser[user] - {sid};
        if sids == {} {
          assert byUser[user] == {sid};
          byUser := byUser - {user};
        } else {
          byUser := byUser[user := sids];
        }
      }
    }

    /** The loop of `sweep`. */
    method DropAll(expired: set<Sid>)
      requires IsIndex(byUser, sessions)
      modifies this`sessions, this`byUser
      ensures IsIndex(byUser, sessions) && sessions == old(sessions) - expired
    {
      hide IsIndex;
      var todo := expired;
      assert sessions - (expired - todo) == sessions;
      while todo != {}
        invariant todo <= expired && IsIndex(byUser, sessions) && sessions == old(sessions) - (expired - todo)
        decreases |todo|
      {
        var sid: Sid :| sid in todo;
        Drop(sid);
        DropOneMore(old(sessions), expired, todo, sid);
        todo := todo - {sid};
      }
      assert expired - {} == expired;
    }

    /** `sweep`, with the time already defaulted. */
    method Sweep(now: int) returns (removed: nat)
      requires Valid()
      modifies this`sessions, this`byUser
      ensures Valid() && sessions == Live(old(sessions), now) && removed == old(|sessions|) - |sessions|
    {
      var expired := set sid | sid in sessions && IsExpired(sessions[sid], now);
      SweptIs(sessions, expired, now);
      hide IsIndex, Live, IsExpired;
      DropAll(expired);
      return |expired|;
    }

    /** `create`; `sid` is the identifier drawn for the session, and `now` the clock. */
    method Create(sid: Sid, user: User, cookies: Payload, portal: Payload, pwdHash: Option<Hash>, now: int)
      requires Valid() && sid !in sessions
      modifies this`sessions, this`byUser
      ensures Valid()
      ensures Created(old(sessions), sessions, sid, Session(user, cookies, portal, now, now + ttl, pwdHash), maxSessions, now)
    {
      ghost var before := sessions;
      var _ := Sweep(now);
      assert sid !in sessions;
      var rec := Session(user, cookies, portal, now, now + ttl, pwdHash);
      IndexAfterAdd(byUser, sessions, sid, rec);
      SizeAfterAdd(sessions, sid, rec);
      hide IsIndex, Live;
      sessions := sessions[sid := rec];
      byUser := byUser[user := (if user in byUser then byUser[user] else {}) + {sid}];
      if |sessions| > maxSessions {
        var oldest := FindOldest(sid);
        SizeAfterDrop(sessions, oldest);
        Drop(oldest);
      }
    }

    /** `min(self.sessions, key=at)`: the first of the least; the newest entry of the dictionary is `last`. */
    method FindOldest(last: Sid) returns (oldest: Sid)
      requires sessions != map[]
      ensures IsOldest(sessions, oldest, last)
    {
      ghost var some := OldestExists(sessions, last);
      oldest :| oldest in sessions && forall other | other in sessions && other != oldest ::
          if oldest == last then sessions[oldest].at < sessions[other].at else sessions[oldest].at <= sessions[other].at;
    }

    /** `find_reusable`: looks only at the sessions of the user, through the index. */
    method FindReusable(user: User, hash: Hash, maxAge: int, now: int) returns (best: Option<Sid>)
      requires Valid()
      modifies this`sessions, this`byUser
      ensures Valid()
      ensures user == "" || hash == "" || !loginReuse ==> best == None && sessions == old(sessions)
      ensures user != "" && hash != "" && loginReuse ==>
                sessions == Live(old(sessions), now)
                && IsNewest(old(sessions), Reusable(old(sessions), user, hash, maxAge, now), best)
    {
      if user == "" || hash == "" || !loginReuse {
        return None;
      }
      var _ := Sweep(now);
      ReusableIsMine(byUser, old(sessions), sessions, user, hash, maxAge, now);
      hide IsIndex, Live, Reusable;
      best := NewestOf(if user in byUser then byUser[user] else {}, user, hash, maxAge, now);
    }

    /** The loop of `find_reusable` over the sessions of one user. */
    method NewestOf(mine: set<Sid>, user: User, hash: Hash, maxAge: int, now: int) returns (best: Option<Sid>)
      requires forall sid | sid in mine :: sid in sessions && sessions[sid].user == user
      ensures match best
              case None => forall sid | sid in mine :: !IsReusable(sessions[sid], user, hash, maxAge, now)
              case Some(b) =>
                b in mine && IsReusable(sessions[b], user, hash, maxAge, now)
                && forall sid | sid in mine && IsReusable(sessions[sid], user, hash, maxAge, now) :: sessions[sid].at <= sessions[b].at
    {
      best := None;
      var bestAt := -1;
      var todo := mine;
      while todo != {}
        invariant todo <= mine && bestAt >= -1 && (best.None? ==> bestAt == -1)
        invariant best.Some? ==>
                    best.value in mine && IsReusable(sessions[best.value], user, hash, maxAge, now) && sessions[best.value].at == bestAt
        invariant forall sid | sid in mine - todo && IsReusable(sessions[sid], user, hash, maxAge, now) :: sessions[sid].at <= bestAt
        decreases |todo|
      {
        var sid: Sid :| sid in todo;
        var s := sessions[sid];
        if s.pwdHash == Some(hash) && s.exp > now && now - s.at <= maxAge && s.at > bestAt {
          best, bestAt := Some(sid), s.at;
        }
        todo := todo - {sid};
      }
    }

    /** `refresh`. */
    method Refresh(sid: Sid, cookies: Option<Payload>, portal: Option<Payload>) returns (ok: bool)
      requires Valid()
      modifies this`sessions
      ensures Valid() && ok == (sid in old(sessions))
      ensures if ok then
                var s := old(sessions)[sid];
                sessions == old(sessions)[sid := s.(cookies := if cookies.Some? then cookies.value else s.cookies,
                                                    portal := if portal.Some? then portal.value else s.portal)]
              else sessions == old(sessions)
    {
      if sid !in sessions {
        return false;
      }
      var s := sessions[sid];
      var next := s.(cookies := if cookies.Some? then cookies.value else s.cookies,
                     portal := if portal.Some? then portal.value else s.portal);
      IndexAfterChange(byUser, sessions, sid, next);
      assert sessions[sid := next].Keys == sessions.Keys;
      sessions := sessions[sid := next];
      return true;
    }

    /** `touch`. */
    method Touch(sid: Sid, now: int) returns (ok: bool)
      requires Valid()
      modifies this`sessions
      ensures Valid() && ok == (sid in old(sessions))
      ensures sessions == if ok then old(sessions)[sid := old(sessions)[sid].(exp := now + ttl)] else old(sessions)
    {
      if sid !in sessions {
        return false;
      }
      var next := sessions[sid].(exp := now + ttl);
      IndexAfterChange(byUser, sessions, sid, next);
      assert sessions[sid := next].Keys == sessions.Keys;
      sessions := sessions[sid := next];
      return true;
    }

    /** `get`: an expired session is dropped on sight. */
    method Get(sid: Sid, now: int) returns (r: Option<Session>)
      requires Valid()
      modifies this`sessions, this`byUser
      ensures Valid()
      ensures r == (if sid in old(sessions) && !IsExpired(old(sessions)[sid], now) then Some(old(sessions)[sid]) else None)
      ensures sessions == if r.None? then old(sessions) - {sid} else old(sessions)
    {
      if sid !in sessions {
        assert sessions - {sid} == sessions;
        return None;
      }
      if sessions[sid].exp < now {
        SizeAfterDrop(sessions, sid);
        Drop(sid);
        return None;
      }
      return Some(sessions[sid]);
    }

    /** `invalidate`. */
    method Invalidate(sid: Sid) returns (existed: bool)
      requires Valid()
      modifies this`sessions, this`byUser
      ensures Valid() && existed == (sid in old(sessions)) && sessions == old(sessions) - {sid}
    {
      existed := sid in sessions;
      SizeAfterDrop(sessions, sid);
      Drop(sid);
    }
  }
}
