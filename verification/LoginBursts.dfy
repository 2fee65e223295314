/**
The login rate limit when logins overlap: every login that is in flight has been checked, but
its failure is not recorded yet.
*/
module LoginBursts {
  import opened Sessions

  /** A pending login carries the time of its check; its failure is recorded with the time of the record. */
  datatype State = State(now: nat, log: seq<Failure>, pending: map<nat, Failure>)

  datatype Action =
    | Tick(ms: nat)
    | Check(n: nat, ip: string, email: string)
    | Record(n: nat)
    | Drop(n: nat)            // the password was right, or the request died

  function Init(): State { State(0, [], map[]) }

  function Step(s: State, a: Action): State {
    match a
    case Tick(ms) => s.(now := s.now + ms)
    case Check(n, ip, email) =>
      var f := Failure(ip, email, s.now);
      if n in s.pending || !Admitted(s.log, f) then s else s.(pending := s.pending[n := f])
    case Record(n) =>
      if n !in s.pending then s else s.(log := s.log + [s.pending[n].(time := s.now)], pending := s.pending - {n})
    case Drop(n) => s.(pending := s.pending - {n})
  }

  function Run(s: State, acts: seq<Action>): State
    decreases |acts|
  {
    if acts == [] then s else Run(Step(s, acts[0]), acts[1..])
  }

  /** Whom a limit is about: one address, or one account. */
  datatype Subject = Ip(ip: string) | Email(email: string)

  function Concerns(who: Subject): Failure -> bool { if who.Ip? then FromIp(who.ip) else ForEmail(who.email) }

  function LimitOf(who: Subject): nat { if who.Ip? then LOGIN_IP_LIMIT else LOGIN_EMAIL_LIMIT }

  /** The subject's logins in flight. */
  function InFlight(s: State, who: Subject): set<nat> { set n | n in s.pending && Concerns(who)(s.pending[n]) }

  predicate AtMostInFlight(s: State, acts: seq<Action>, who: Subject, k: nat)
    decreases |acts|
  {
    |InFlight(s, who)| <= k && (acts != [] ==> AtMostInFlight(Step(s, acts[0]), acts[1..], who, k))
  }

  // ---------------------------------------------------------------- the bound

  /** While the limit is reached in the last 15 minutes nobody is let in, so what is in flight is all that can follow. */
  ghost predicate Bounded(s: State, who: Subject, k: nat) {
    && (forall i :: 0 <= i < |s.log| ==> s.log[i].time <= s.now)
    && (forall lo: int :: lo >= s.now - LOGIN_WINDOW && Since(s.log, lo, Concerns(who)) >= LimitOf(who) ==>
          Since(s.log, lo, Concerns(who)) + |InFlight(s, who)| <= LimitOf(who) + k - 1)
    && Limited(s.log, LimitOf(who) + k - 1, Concerns(who))
  }

  lemma {:induction false} SinceIsMonotone(log: seq<Failure>, lo: int, hi: int, concerns: Failure -> bool)
    requires lo <= hi
    ensures Since(log, hi, concerns) <= Since(log, lo, concerns)
  {
    if log != [] { SinceIsMonotone(log[..|log| - 1], lo, hi, concerns); }
  }

  lemma {:induction false} NothingSince(log: seq<Failure>, lo: int, concerns: Failure -> bool)
    requires forall i :: 0 <= i < |log| ==> log[i].time < lo
    ensures Since(log, lo, concerns) == 0
  {
    if log != [] { NothingSince(log[..|log| - 1], lo, concerns); }
  }

  lemma FewerInFlight(s: State, n: nat, who: Subject)
    ensures var rest := s.(pending := s.pending - {n});
            |InFlight(rest, who)| == |InFlight(s, who)| - if n in InFlight(s, who) then 1 else 0
  {
    assert InFlight(s.(pending := s.pending - {n}), who) == InFlight(s, who) - {n};
  }

  lemma CheckKeepsBound(s: State, n: nat, ip: string, email: string, who: Subject, k: nat)
    requires Bounded(s, who, k)
    ensures Bounded(Step(s, Check(n, ip, email)), who, k)
  {
    var f := Failure(ip, email, s.now);
    if n !in s.pending && Admitted(s.log, f) {
      var s' := Step(s, Check(n, ip, email));
      if Concerns(who)(f) {
        forall lo: int | lo >= s.now - LOGIN_WINDOW ensures Since(s.log, lo, Concerns(who)) < LimitOf(who) {
          SinceIsMonotone(s.log, s.now - LOGIN_WINDOW, lo, Concerns(who));
        }
      } else {
        assert InFlight(s', who) == InFlight(s, who);
      }
    }
  }

  lemma RecordKeepsBound(s: State, n: nat, who: Subject, k: nat)
    requires Bounded(s, who, k) && n in s.pending && 1 <= k && |InFlight(s, who)| <= k
    ensures Bounded(Step(s, Record(n)), who, k)
  {
    var f, s' := s.pending[n].(time := s.now), Step(s, Record(n));
    FewerInFlight(s, n, who);
    assert s'.log[..|s.log|] == s.log;
    assert Concerns(who)(f) <==> n in InFlight(s, who);
    forall lo: int | lo >= s.now - LOGIN_WINDOW && Since(s'.log, lo, Concerns(who)) >= LimitOf(who)
      ensures Since(s'.log, lo, Concerns(who)) + |InFlight(s', who)| <= LimitOf(who) + k - 1
    {
      if lo > s.now { NothingSince(s'.log, lo, Concerns(who)); }
    }
    forall start: int ensures InWindow(s'.log, start, Concerns(who)) <= LimitOf(who) + k - 1 {
      if Concerns(who)(f) && start <= s.now <= start + LOGIN_WINDOW {
        WindowIsSince(s'.log, start, start, Concerns(who));
      } else {
        assert InWindow(s'.log, start, Concerns(who)) == InWindow(s.log, start, Concerns(who));
      }
    }
  }

  lemma {:induction false} RunKeepsBound(s: State, acts: seq<Action>, who: Subject, k: nat)
    requires 1 <= k && Bounded(s, who, k) && AtMostInFlight(s, acts, who, k)
    ensures Bounded(Run(s, acts), who, k)
    decreases |acts|
  {
    if acts != [] {
      match acts[0] {
        case Tick(ms) => assert InFlight(Step(s, acts[0]), who) == InFlight(s, who);
        case Check(n, ip, email) => CheckKeepsBound(s, n, ip, email, who, k);
        case Record(n) => if n in s.pending { RecordKeepsBound(s, n, who, k); }
        case Drop(n) => FewerInFlight(s, n, who);
      }
      RunKeepsBound(Step(s, acts[0]), acts[1..], who, k);
    }
  }

  /** With at most k logins of the subject in flight at a time, at most limit + k - 1 of its failures are recorded in any
      15 minutes, however the logins overlap. */
  lemma BurstsAreLimited(acts: seq<Action>, who: Subject, k: nat)
    requires 1 <= k && AtMostInFlight(Init(), acts, who, k)
    ensures Limited(Run(Init(), acts).log, LimitOf(who) + k - 1, Concerns(who))
  {
    assert Bounded(Init(), who, k);
    RunKeepsBound(Init(), acts, who, k);
  }

  // ---------------------------------------------------------------- and it is reached

  function Name(i: nat): string { seq(i, _ => 'a') }

  /** Failing logins of the subject that have nothing else in common. */
  function Attempt(who: Subject, i: nat): Failure {
    if who.Ip? then Failure(who.ip, Name(i), 0) else Failure(Name(i), who.email, 0)
  }

  function Failures(who: Subject, n: nat): seq<Failure> { seq(n, i requires 0 <= i < n => Attempt(who, i)) }

  function CheckOf(who: Subject, i: nat): Action { Check(i, Attempt(who, i).ip, Attempt(who, i).email) }

  /** So many failures recorded, and the logins from there up to `end` in flight. */
  function Between(who: Subject, recorded: nat, end: nat): State {
    State(0, Failures(who, recorded), map i: nat | recorded <= i < end :: Attempt(who, i))
  }

  lemma {:induction false} AllConcerned(who: Subject, n: nat, lo: int)
    requires lo <= 0
    ensures Since(Failures(who, n), lo, Concerns(who)) == n
  {
    if n > 0 {
      AllConcerned(who, n - 1, lo);
      assert Failures(who, n)[..n - 1] == Failures(who, n - 1);
    }
  }

  /** The other limit does not come into it. */
  lemma {:induction false} OtherwiseUnrelated(who: Subject, n: nat, j: nat, lo: int)
    requires n <= j
    ensures Since(Failures(who, n), lo, if who.Ip? then ForEmail(Name(j)) else FromIp(Name(j))) == 0
  {
    if n > 0 {
      OtherwiseUnrelated(who, n - 1, j, lo);
      assert Failures(who, n)[..n - 1] == Failures(who, n - 1);
      assert |Name(n - 1)| != |Name(j)|;
    }
  }

  lemma NextIsChecked(who: Subject, recorded: nat, end: nat)
    requires recorded <= end && recorded < LimitOf(who)
    ensures Step(Between(who, recorded, end), CheckOf(who, end)) == Between(who, recorded, end + 1)
  {
    var lo: int := 0 - LOGIN_WINDOW;
    AllConcerned(who, recorded, lo);
    OtherwiseUnrelated(who, recorded, end, lo);
    assert Admitted(Failures(who, recorded), Attempt(who, end));
  }

  lemma FirstIsRecorded(who: Subject, recorded: nat, end: nat)
    requires recorded < end
    ensures Step(Between(who, recorded, end), Record(recorded)) == Between(who, recorded + 1, end)
  {
    assert Failures(who, recorded + 1) == Failures(who, recorded) + [Attempt(who, recorded)];
  }

  lemma {:induction false} HowManyInFlight(who: Subject, recorded: nat, end: nat)
    requires recorded <= end
    ensures |InFlight(Between(who, recorded, end), who)| == end - recorded
    decreases end
  {
    if recorded < end {
      HowManyInFlight(who, recorded, end - 1);
      assert InFlight(Between(who, recorded, end), who) == InFlight(Between(who, recorded, end - 1), who) + {end - 1};
    } else {
      assert InFlight(Between(who, recorded, end), who) == {};
    }
  }

  /** A run from one such state to another, with no more than k logins in flight on the way. */
  predicate Leads(who: Subject, k: nat, s: State, acts: seq<Action>, s': State) {
    Run(s, acts) == s' && AtMostInFlight(s, acts, who, k)
  }

  lemma {:induction false} LeadsOn(who: Subject, k: nat, s: State, a: seq<Action>, s': State, b: seq<Action>, s'': State)
    requires Leads(who, k, s, a, s') && Leads(who, k, s', b, s'')
    ensures Leads(who, k, s, a + b, s'')
    decreases |a|
  {
    if a == [] {
      assert a + b == b;
    } else {
      assert (a + b)[1..] == a[1..] + b;
      LeadsOn(who, k, Step(s, a[0]), a[1..], s', b, s'');
    }
  }

  lemma OneStepLeads(who: Subject, k: nat, s: State, a: Action)
    requires |InFlight(s, who)| <= k && |InFlight(Step(s, a), who)| <= k
    ensures Leads(who, k, s, [a], Step(s, a))
  {
    assert AtMostInFlight(Step(s, a), [], who, k);
    assert Run(Step(s, a), []) == Step(s, a);
  }

  lemma CheckLeads(who: Subject, k: nat, recorded: nat, end: nat)
    requires recorded <= end < recorded + k && recorded < LimitOf(who)
    ensures Leads(who, k, Between(who, recorded, end), [CheckOf(who, end)], Between(who, recorded, end + 1))
  {
    NextIsChecked(who, recorded, end);
    HowManyInFlight(who, recorded, end);
    HowManyInFlight(who, recorded, end + 1);
    OneStepLeads(who, k, Between(who, recorded, end), CheckOf(who, end));
  }

  lemma RecordLeads(who: Subject, k: nat, recorded: nat, end: nat)
    requires recorded < end <= recorded + k
    ensures Leads(who, k, Between(who, recorded, end), [Record(recorded)], Between(who, recorded + 1, end))
  {
    FirstIsRecorded(who, recorded, end);
    HowManyInFlight(who, recorded, end);
    HowManyInFlight(who, recorded + 1, end);
    OneStepLeads(who, k, Between(who, recorded, end), Record(recorded));
  }

  /** One login after the other ... */
  lemma {:induction false} OneByOne(who: Subject, k: nat, n: nat) returns (acts: seq<Action>)
    requires 1 <= k && n <= LimitOf(who)
    ensures Leads(who, k, Between(who, 0, 0), acts, Between(who, n, n))
  {
    acts := [];
    HowManyInFlight(who, 0, 0);
    if n > 0 {
      var before := OneByOne(who, k, n - 1);
      CheckLeads(who, k, n - 1, n - 1);
      RecordLeads(who, k, n - 1, n);
      LeadsOn(who, k, Between(who, 0, 0), before, Between(who, n - 1, n - 1), [CheckOf(who, n - 1)], Between(who, n - 1, n));
      LeadsOn(who, k, Between(who, 0, 0), before + [CheckOf(who, n - 1)], Between(who, n - 1, n), [Record(n - 1)], Between(who, n, n));
      acts := before + [CheckOf(who, n - 1)] + [Record(n - 1)];
    }
  }

  /** ... then m at once ... */
  lemma {:induction false} AllChecked(who: Subject, k: nat, n: nat, m: nat) returns (acts: seq<Action>)
    requires m <= k && n < LimitOf(who)
    ensures Leads(who, k, Between(who, n, n), acts, Between(who, n, n + m))
  {
    acts := [];
    HowManyInFlight(who, n, n);
    if m > 0 {
      var before := AllChecked(who, k, n, m - 1);
      CheckLeads(who, k, n, n + m - 1);
      LeadsOn(who, k, Between(who, n, n), before, Between(who, n, n + m - 1), [CheckOf(who, n + m - 1)], Between(who, n, n + m));
      acts := before + [CheckOf(who, n + m - 1)];
    }
  }

  /** ... which are then recorded. */
  lemma {:induction false} AllRecorded(who: Subject, k: nat, n: nat, m: nat) returns (acts: seq<Action>)
    requires m <= k
    ensures Leads(who, k, Between(who, n, n + m), acts, Between(who, n + m, n + m))
    decreases m
  {
    acts := [];
    HowManyInFlight(who, n, n + m);
    if m > 0 {
      RecordLeads(who, k, n, n + m);
      var rest := AllRecorded(who, k, n + 1, m - 1);
      LeadsOn(who, k, Between(who, n, n + m), [Record(n)], Between(who, n + 1, n + m), rest, Between(who, n + m, n + m));
      acts := [Record(n)] + rest;
    }
  }

  lemma {:induction false} AllInWindow(who: Subject, n: nat)
    ensures InWindow(Failures(who, n), 0, Concerns(who)) == n
  {
    if n > 0 {
      AllInWindow(who, n - 1);
      assert Failures(who, n)[..n - 1] == Failures(who, n - 1);
    }
  }

  /** The bound is exact for every k. */
  lemma BurstsReachTheLimit(who: Subject, k: nat)
    requires 1 <= k
    ensures exists acts :: AtMostInFlight(Init(), acts, who, k)
                           && InWindow(Run(Init(), acts).log, 0, Concerns(who)) == LimitOf(who) + k - 1
  {
    var n := LimitOf(who) - 1;
    var a := OneByOne(who, k, n);
    var b := AllChecked(who, k, n, k);
    var c := AllRecorded(who, k, n, k);
    assert Init() == Between(who, 0, 0);
    LeadsOn(who, k, Init(), a, Between(who, n, n), b, Between(who, n, n + k));
    LeadsOn(who, k, Init(), a + b, Between(who, n, n + k), c, Between(who, n + k, n + k));
    AllInWindow(who, n + k);
    assert AtMostInFlight(Init(), a + b + c, who, k) && Run(Init(), a + b + c) == Between(who, n + k, n + k);
  }
}
