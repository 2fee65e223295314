/** Admin sessions: idle and absolute expiry, revocation, the cap on live sessions, and the login rate limit. */
module Sessions {

  datatype Session = Session(admin: string, created: nat, lastSeen: nat, expires: nat, agent: string, revoked: bool)

  /** A request that presents the session's token. */
  datatype Request = Request(time: nat, agent: string, disabled: bool)

  /** last_seen_at is refreshed when it is older than this. */
  const SEEN_INTERVAL: nat := 5 * 60_000

  const MAX_ACTIVE: nat := 5

  function Revoked(s: Session): Session { s.(revoked := true) }

  predicate Refuses(s: Session, r: Request, idle: nat) {
    || r.disabled || s.expires <= r.time
    || (s.agent != "" && s.agent != r.agent)
    || (idle > 0 && r.time - s.lastSeen > idle)
  }

  /** getSession on the session's row: the row afterwards, and whether the request is let in.  `idle` is 0 for no limit. */
  function Visit(s: Session, r: Request, idle: nat): (Session, bool) {
    if s.revoked then (s, false)
    else if Refuses(s, r, idle) then (Revoked(s), false)
    else if r.time - s.lastSeen > SEEN_INTERVAL then (s.(lastSeen := r.time), true)
    else (s, true)
  }

  // ---------------------------------------------------------------- the life of one session

  /** The session and the time of the last request that was let in; logging in counts as one. */
  datatype Track = Track(s: Session, lastAccepted: nat)

  function Next(k: Track, r: Request, idle: nat): Track {
    var (s, ok) := Visit(k.s, r, idle);
    Track(s, if ok then r.time else k.lastAccepted)
  }

  function Follow(k: Track, rs: seq<Request>, idle: nat): Track
    decreases |rs|
  {
    if rs == [] then k else Follow(Next(k, rs[0], idle), rs[1..], idle)
  }

  /** Requests come in the order of their times, none before `from`. */
  predicate Ordered(rs: seq<Request>, from: nat)
    decreases |rs|
  {
    rs != [] ==> from <= rs[0].time && Ordered(rs[1..], rs[0].time)
  }

  function LoggedIn(admin: string, time: nat, expires: nat, agent: string): Track {
    Track(Session(admin, time, time, expires, agent, false), time)
  }

  /** last_seen_at lags the last accepted request by at most five minutes. */
  predicate Lags(k: Track) { k.s.lastSeen <= k.lastAccepted <= k.s.lastSeen + SEEN_INTERVAL }

  lemma {:induction false} LagIsBounded(k: Track, rs: seq<Request>, idle: nat)
    requires Lags(k) && Ordered(rs, k.lastAccepted)
    ensures Lags(Follow(k, rs, idle))
    ensures Follow(k, rs, idle).s.created == k.s.created && Follow(k, rs, idle).s.expires == k.s.expires
    decreases |rs|
  {
    if rs != [] {
      OrderedFrom(rs[1..], rs[0].time, Next(k, rs[0], idle).lastAccepted);
      LagIsBounded(Next(k, rs[0], idle), rs[1..], idle);
    }
  }

  lemma OrderedFrom(rs: seq<Request>, from: nat, earlier: nat)
    requires Ordered(rs, from) && earlier <= from
    ensures Ordered(rs, earlier)
  {
  }

  /** Over every sequence of requests: after a gap longer than the limit the session is refused. */
  lemma LongGapIsRefused(admin: string, login: nat, expires: nat, agent: string, rs: seq<Request>, r: Request, idle: nat)
    requires idle > 0 && Ordered(rs, login)
    requires var k := Follow(LoggedIn(admin, login, expires, agent), rs, idle); r.time > k.lastAccepted + idle
    ensures var k := Follow(LoggedIn(admin, login, expires, agent), rs, idle);
            var after := Visit(k.s, r, idle); !after.1 && after.0.revoked
  {
    LagIsBounded(LoggedIn(admin, login, expires, agent), rs, idle);
  }

  /** Requests of the session's own browser while the admin is enabled and the session has not reached its end, with no
      gap longer than `gap`. */
  predicate Lively(rs: seq<Request>, from: nat, gap: nat, expires: nat, agent: string)
    decreases |rs|
  {
    rs != [] ==>
      && from <= rs[0].time <= from + gap && rs[0].time < expires && !rs[0].disabled && rs[0].agent == agent
      && Lively(rs[1..], rs[0].time, gap, expires, agent)
  }

  /** With gaps of at most the limit less five minutes, every request is let in until the absolute expiry. */
  lemma {:induction false} ShortGapsAreAccepted(k: Track, rs: seq<Request>, idle: nat)
    requires idle >= SEEN_INTERVAL && Lags(k) && !k.s.revoked
    requires Lively(rs, k.lastAccepted, idle - SEEN_INTERVAL, k.s.expires, k.s.agent)
    ensures var k' := Follow(k, rs, idle); !k'.s.revoked && (rs != [] ==> k'.lastAccepted == rs[|rs| - 1].time)
    decreases |rs|
  {
    if rs != [] {
      ShortGapsAreAccepted(Next(k, rs[0], idle), rs[1..], idle);
    }
  }

  /** The five minutes are needed: a gap one millisecond longer can already end the session. */
  lemma GapCanExpireEarly(admin: string, agent: string, expires: nat, idle: nat)
    requires idle >= SEEN_INTERVAL && expires > idle + 1
    ensures var k := Follow(LoggedIn(admin, 0, expires, agent), [Request(SEEN_INTERVAL, agent, false)], idle);
            var r := Request(idle + 1, agent, false);
            && k.lastAccepted == SEEN_INTERVAL && r.time - k.lastAccepted == idle - SEEN_INTERVAL + 1
            && !Visit(k.s, r, idle).1
  {
  }

  lemma {:induction false} NeverRefreshed(k: Track, rs: seq<Request>, idle: nat)
    requires 0 < idle <= SEEN_INTERVAL
    ensures var k' := Follow(k, rs, idle); k'.s.lastSeen == k.s.lastSeen && k'.s.created == k.s.created
    decreases |rs|
  {
    if rs != [] { NeverRefreshed(Next(k, rs[0], idle), rs[1..], idle); }
  }

  /** A limit of five minutes or less is no idle limit at all: last_seen_at is never refreshed, so the session ends that
      long after the login, however busy it is. */
  lemma SmallLimitIsAbsolute(admin: string, login: nat, expires: nat, agent: string, rs: seq<Request>, r: Request, idle: nat)
    requires 0 < idle <= SEEN_INTERVAL && r.time > login + idle
    ensures !Visit(Follow(LoggedIn(admin, login, expires, agent), rs, idle).s, r, idle).1
  {
    NeverRefreshed(LoggedIn(admin, login, expires, agent), rs, idle);
  }

  /** A request that is good in itself: of the session's own browser, before its end, for an admin who is enabled. */
  predicate IsGood(s: Session, r: Request) {
    r.time < s.expires && !r.disabled && (s.agent == "" || r.agent == s.agent)
  }

  /** One request is let in if and only if the session has not been revoked, the request is good, and the session has not
      been idle for too long; one that is not let in leaves a revoked session, and one that is changes last_seen_at only,
      to its own time. */
  lemma AcceptedIff(s: Session, r: Request, idle: nat)
    ensures var (s', ok) := Visit(s, r, idle);
            && (ok <==> !s.revoked && IsGood(s, r) && (idle == 0 || r.time <= s.lastSeen + idle))
            && s'.revoked == !ok
            && s' == s.(revoked := s'.revoked, lastSeen := s'.lastSeen)
            && s'.lastSeen == if ok && r.time > s.lastSeen + 5 * 60_000 then r.time else s.lastSeen
  {
  }

  /** Over any sequence of requests: one bad request ends the session. */
  lemma {:induction false} BadRequestEndsSession(k: Track, rs: seq<Request>, idle: nat, i: nat)
    requires i < |rs| && !IsGood(k.s, rs[i])
    ensures Follow(k, rs, idle).s.revoked
    decreases |rs|
  {
    AcceptedIff(k.s, rs[0], idle);
    if i == 0 {
      RevokedStaysRevoked(Next(k, rs[0], idle), rs[1..], idle);
    } else {
      BadRequestEndsSession(Next(k, rs[0], idle), rs[1..], idle, i - 1);
    }
  }

  /** Without an idle limit nothing else does. */
  lemma {:induction false} GoodRequestsKeepSession(k: Track, rs: seq<Request>)
    requires !k.s.revoked
    ensures Follow(k, rs, 0).s.revoked <==> exists i :: 0 <= i < |rs| && !IsGood(k.s, rs[i])
    decreases |rs|
  {
    if rs != [] {
      AcceptedIff(k.s, rs[0], 0);
      if IsGood(k.s, rs[0]) {
        GoodRequestsKeepSession(Next(k, rs[0], 0), rs[1..]);
        if i :| 0 <= i < |rs| && !IsGood(k.s, rs[i]) { assert rs[1..][i - 1] == rs[i]; }
        if i :| 0 <= i < |rs| - 1 && !IsGood(k.s, rs[1..][i]) { assert rs[i + 1] == rs[1..][i]; }
      } else {
        BadRequestEndsSession(k, rs, 0, 0);
      }
    }
  }

  /** Revocation is terminal, whatever revoked the session. */
  lemma {:induction false} RevokedStaysRevoked(k: Track, rs: seq<Request>, idle: nat)
    requires k.s.revoked
    ensures Follow(k, rs, idle) == k
    decreases |rs|
  {
    if rs != [] { RevokedStaysRevoked(Next(k, rs[0], idle), rs[1..], idle); }
  }

  // ---------------------------------------------------------------- the table

  function Live(sessions: map<string, Session>, admin: string): set<string> {
    set t | t in sessions && sessions[t].admin == admin && !sessions[t].revoked
  }

  /** `after` is `before` with exactly the tokens in `gone` revoked. */
  predicate RevokedExactly(before: map<string, Session>, after: map<string, Session>, gone: set<string>) {
    after.Keys == before.Keys && forall t :: t in before ==> after[t] == if t in gone then Revoked(before[t]) else before[t]
  }

  /** The newest five live sessions of the admin (some choice of them, if there are ties). */
  predicate IsNewest(kept: set<string>, sessions: map<string, Session>, admin: string) {
    var live := Live(sessions, admin);
    && kept <= live && |kept| == (if |live| < MAX_ACTIVE then |live| else MAX_ACTIVE)
    && forall k, t :: k in kept && t in live && t !in kept ==> sessions[k].created >= sessions[t].created
  }

  method Newest(sessions: map<string, Session>, rest: set<string>) returns (best: string)
    requires rest != {} && rest <= sessions.Keys
    ensures best in rest && forall t :: t in rest ==> sessions[best].created >= sessions[t].created
  {
    best :| best in rest;
    var seen := {best};
    while seen != rest
      invariant best in seen && seen <= rest
      invariant forall t :: t in seen ==> sessions[best].created >= sessions[t].created
      decreases rest - seen
    {
      var t :| t in rest && t !in seen;
      if sessions[t].created > sessions[best].created { best := t; }
      seen := seen + {t};
    }
  }

  /** The sessions picked so far are at least as new as the rest. */
  predicate Picked(kept: set<string>, rest: set<string>, sessions: map<string, Session>, live: set<string>) {
    && live <= sessions.Keys && kept + rest == live && kept !! rest && |kept| + |rest| == |live|
    && forall k, t :: k in kept && t in rest ==> sessions[k].created >= sessions[t].created
  }

  lemma PickMore(kept: set<string>, rest: set<string>, sessions: map<string, Session>, live: set<string>, t: string)
    requires Picked(kept, rest, sessions, live) && t in rest
    requires forall u :: u in rest ==> sessions[t].created >= sessions[u].created
    ensures Picked(kept + {t}, rest - {t}, sessions, live)
  {
  }

  class SessionTable {
    var sessions: map<string, Session>

    /** getSession */
    method GetSession(token: string, r: Request, idle: nat) returns (accepted: bool)
      modifies this
      ensures token !in old(sessions) ==> !accepted && sessions == old(sessions)
      ensures token in old(sessions) ==>
                sessions == old(sessions)[token := Visit(old(sessions)[token], r, idle).0] && accepted == Visit(old(sessions)[token], r, idle).1
    {
      if token !in sessions || sessions[token].revoked { return false; }
      var row := sessions[token];
      if r.disabled || row.expires <= r.time {
        RevokeSession(token);
        return false;
      }
      if row.agent != "" && row.agent != r.agent {
        RevokeSession(token);
        return false;
      }
      if idle > 0 && r.time - row.lastSeen > idle {
        RevokeSession(token);
        return false;
      }
      if r.time - row.lastSeen > SEEN_INTERVAL {
        sessions := sessions[token := row.(lastSeen := r.time)];
      }
      accepted := true;
    }

    method RevokeSession(token: string)
      modifies this
      ensures sessions == if token in old(sessions) then old(sessions)[token := Revoked(old(sessions)[token])] else old(sessions)
    {
      if token in sessions { sessions := sessions[token := Revoked(sessions[token])]; }
    }

    /** The subquery of trimSessions: ORDER BY created_at DESC LIMIT 5. */
    method SelectNewest(admin: string) returns (kept: set<string>)
      ensures IsNewest(kept, sessions, admin)
    {
      var live := Live(sessions, admin);
      var rest := live;
      kept := {};
      while |kept| < MAX_ACTIVE && rest != {}
        invariant Picked(kept, rest, sessions, live) && |kept| <= MAX_ACTIVE
      {
        var t := Newest(sessions, rest);
        PickMore(kept, rest, sessions, live, t);
        kept, rest := kept + {t}, rest - {t};
      }
    }

    /** trimSessions */
    method TrimSessions(admin: string)
      modifies this
      ensures |Live(sessions, admin)| <= MAX_ACTIVE && IsNewest(Live(sessions, admin), old(sessions), admin)
      ensures RevokedExactly(old(sessions), sessions, Live(old(sessions), admin) - Live(sessions, admin))
    {
      var kept := SelectNewest(admin);
      var live := Live(sessions, admin);
      sessions := map t | t in sessions :: if t in live && t !in kept then Revoked(sessions[t]) else sessions[t];
      assert Live(sessions, admin) == kept;
    }

    /** createSession: the new session is kept, unless five others are as new. */
    method CreateSession(token: string, admin: string, now: nat, expires: nat, agent: string)
      requires token !in sessions
      modifies this
      ensures |Live(sessions, admin)| <= MAX_ACTIVE
      ensures sessions.Keys == old(sessions).Keys + {token}
      ensures (forall t :: t in Live(old(sessions), admin) ==> old(sessions)[t].created < now) ==>
                token in Live(sessions, admin) && sessions[token] == LoggedIn(admin, now, expires, agent).s
      ensures forall t :: t in old(sessions) && old(sessions)[t].admin != admin ==> sessions[t] == old(sessions)[t]
    {
      sessions := sessions[token := LoggedIn(admin, now, expires, agent).s];
      assert token in Live(sessions, admin);
      TrimSessions(admin);
    }
  }

  // ---------------------------------------------------------------- the login rate limit

  const LOGIN_WINDOW: nat := 15 * 60_000
  const LOGIN_IP_LIMIT: nat := 12
  const LOGIN_EMAIL_LIMIT: nat := 8

  /** A failed login. */
  datatype Failure = Failure(ip: string, email: string, time: nat)

  /** Recorded failures that concern the subject, from `lo` on. */
  function Since(log: seq<Failure>, lo: int, concerns: Failure -> bool): nat {
    if log == [] then 0
    else
      var last := log[|log| - 1];
      Since(log[..|log| - 1], lo, concerns) + if concerns(last) && lo <= last.time then 1 else 0
  }

  /** ... and in the window of 15 minutes from `start` on. */
  function InWindow(log: seq<Failure>, start: int, concerns: Failure -> bool): nat {
    if log == [] then 0
    else
      var last := log[|log| - 1];
      InWindow(log[..|log| - 1], start, concerns) + if concerns(last) && start <= last.time <= start + LOGIN_WINDOW then 1 else 0
  }

  function FromIp(ip: string): Failure -> bool { (f: Failure) => f.ip == ip }

  function ForEmail(email: string): Failure -> bool { (f: Failure) => f.email == email }

  /** enforceLoginRateLimit, before the password is looked at. */
  predicate Admitted(log: seq<Failure>, f: Failure) {
    && Since(log, f.time - LOGIN_WINDOW, FromIp(f.ip)) < LOGIN_IP_LIMIT
    && Since(log, f.time - LOGIN_WINDOW, ForEmail(f.email)) < LOGIN_EMAIL_LIMIT
  }

  /** The recorded failures that concern the subject, from `lo` on. */
  function FailuresSince(log: seq<Failure>, lo: int, concerns: Failure -> bool): set<int> {
    set i | 0 <= i < |log| && concerns(log[i]) && log[i].time >= lo
  }

  lemma {:induction false} SinceIsCount(log: seq<Failure>, lo: int, concerns: Failure -> bool)
    ensures Since(log, lo, concerns) == |FailuresSince(log, lo, concerns)|
  {
    if log != [] {
      var init, n := log[..|log| - 1], |log| - 1;
      SinceIsCount(init, lo, concerns);
      assert forall i :: 0 <= i < n ==> init[i] == log[i];
      assert FailuresSince(log, lo, concerns) == FailuresSince(init, lo, concerns) + if n in FailuresSince(log, lo, concerns) then {n} else {};
    }
  }

  /** A login is turned away if and only if 12 failures from its address, or 8 for its account, were recorded in the 15
      minutes before it. */
  lemma AdmittedIff(log: seq<Failure>, f: Failure)
    ensures Admitted(log, f) <==>
              && |set i | 0 <= i < |log| && log[i].ip == f.ip && log[i].time >= f.time - 900_000| < 12
              && |set i | 0 <= i < |log| && log[i].email == f.email && log[i].time >= f.time - 900_000| < 8
  {
    SinceIsCount(log, f.time - 900_000, FromIp(f.ip));
    SinceIsCount(log, f.time - 900_000, ForEmail(f.email));
    assert FailuresSince(log, f.time - 900_000, FromIp(f.ip)) == set i | 0 <= i < |log| && log[i].ip == f.ip && log[i].time >= f.time - 900_000;
    assert FailuresSince(log, f.time - 900_000, ForEmail(f.email))
           == set i | 0 <= i < |log| && log[i].email == f.email && log[i].time >= f.time - 900_000;
  }

  /** Failing logins one after the other; one that is not admitted is not recorded. */
  function Attempts(fs: seq<Failure>): seq<Failure> {
    if fs == [] then []
    else
      var log, f := Attempts(fs[..|fs| - 1]), fs[|fs| - 1];
      if Admitted(log, f) then log + [f] else log
  }

  lemma {:induction false} WindowIsSince(log: seq<Failure>, start: int, lo: int, concerns: Failure -> bool)
    requires lo <= start
    ensures InWindow(log, start, concerns) <= Since(log, lo, concerns)
  {
    if log != [] { WindowIsSince(log[..|log| - 1], start, lo, concerns); }
  }

  /** In every window of 15 minutes at most `limit` recorded failures concern the subject. */
  ghost predicate Limited(log: seq<Failure>, limit: nat, concerns: Failure -> bool) {
    forall start: int :: InWindow(log, start, concerns) <= limit
  }

  lemma OneMoreIsLimited(log: seq<Failure>, f: Failure, limit: nat, concerns: Failure -> bool)
    requires Limited(log, limit, concerns)
    requires concerns(f) ==> Since(log, f.time - LOGIN_WINDOW, concerns) < limit
    ensures Limited(log + [f], limit, concerns)
  {
    assert (log + [f])[..|log|] == log;
    forall start: int ensures InWindow(log + [f], start, concerns) <= limit {
      if concerns(f) && start <= f.time <= start + LOGIN_WINDOW { WindowIsSince(log, start, f.time - LOGIN_WINDOW, concerns); }
    }
  }

  /** Logins one after the other never record more than 12 failures from one address, or 8 for one account, in any 15
      minutes. */
  lemma {:induction false} FailuresAreLimited(fs: seq<Failure>, ip: string, email: string)
    ensures Limited(Attempts(fs), LOGIN_IP_LIMIT, FromIp(ip)) && Limited(Attempts(fs), LOGIN_EMAIL_LIMIT, ForEmail(email))
  {
    if fs != [] {
      var before, f := fs[..|fs| - 1], fs[|fs| - 1];
      FailuresAreLimited(before, ip, email);
      if Admitted(Attempts(before), f) {
        OneMoreIsLimited(Attempts(before), f, LOGIN_IP_LIMIT, FromIp(ip));
        OneMoreIsLimited(Attempts(before), f, LOGIN_EMAIL_LIMIT, ForEmail(email));
      }
    }
  }
}
