/**
Any number of concurrent forwarding drivers against the row of one target, with crashes,
lost answers and time.
*/
module ForwardingRuns {
  import opened Options
  import opened Forwarding

  datatype Phase =
    | Began              // INSERT OR IGNORE of the row is next
    | Ensured            // the claim is next
    | Holding            // claimed; forward() is next
    | Calling            // forward() has been called
    | Sent               // forward() returned; the accepted write is next
    | Refused            // forward() threw, or the accepted write did; the failed write is next
    | Ended

  /** `stamp` is the one clock reading a driver takes; its claims carry it. */
  datatype Worker = Worker(stamp: nat, phase: Phase)

  datatype State = State(
    now: nat,
    row: Option<Row>,
    workers: map<nat, Worker>,
    owner: Option<nat>,         // the driver whose claim succeeded last
    claims: nat,
    sent: set<nat>,             // the drivers whose forward() returned
    acked: set<nat>)            // the drivers whose accepted write committed

  datatype Action =
    | Tick(ms: nat)
    | Begin(w: nat)
    | Ensure(w: nat)
    | Claim(w: nat)
    | Forward(w: nat)
    | Return(w: nat, ok: bool)
    | Accept(w: nat, commits: bool)
    | Fail(w: nat)
    | Die(w: nat)

  function Init(): State { State(0, None, map[], None, 0, {}, {}) }

  predicate At(s: State, w: nat, phase: Phase) { w in s.workers && s.workers[w].phase == phase }

  function To(s: State, w: nat, phase: Phase): State
    requires w in s.workers
  {
    s.(workers := s.workers[w := s.workers[w].(phase := phase)])
  }

  function ClaimStep(s: State, w: nat): State
    requires w in s.workers && s.row.Some?
  {
    var stamp := s.workers[w].stamp;
    if Claimable(s.row.value, stamp) then
      To(s.(row := Some(ClaimedRow(s.row.value, stamp)), owner := Some(w), claims := s.claims + 1), w, Holding)
    else To(s, w, Ended)
  }

  function Step(s: State, a: Action): State {
    match a
    case Tick(ms) => s.(now := s.now + ms)
    case Begin(w) => if w in s.workers then s else s.(workers := s.workers[w := Worker(s.now, Began)])
    case Ensure(w) =>
      if !At(s, w, Began) then s else To(if s.row.None? then s.(row := Some(NEW_ROW)) else s, w, Ensured)
    case Claim(w) => if !At(s, w, Ensured) || s.row.None? then s else ClaimStep(s, w)
    case Forward(w) => if !At(s, w, Holding) then s else To(s, w, Calling)
    case Return(w, ok) =>
      if !At(s, w, Calling) then s
      else if ok then To(s.(sent := s.sent + {w}), w, Sent) else To(s, w, Refused)
    case Accept(w, commits) =>
      if !At(s, w, Sent) || s.row.None? then s
      else if commits then To(s.(row := Some(AcceptedRow(s.row.value)), acked := s.acked + {w}), w, Ended)
      else To(s, w, Refused)
    case Fail(w) =>
      if !At(s, w, Refused) || s.row.None? then s else To(s.(row := Some(FailedRow(s.row.value))), w, Ended)
    case Die(w) => if w !in s.workers then s else To(s, w, Ended)
  }

  function Run(s: State, acts: seq<Action>): State
    decreases |acts|
  {
    if acts == [] then s else Run(Step(s, acts[0]), acts[1..])
  }

  predicate Working(ph: Phase) { ph == Holding || ph == Calling || ph == Sent || ph == Refused }

  /** The driver holds the target and its lease has not aged out. */
  predicate Holds(s: State, w: nat) {
    w in s.workers && Working(s.workers[w].phase) && s.now < LeaseEnd(s.workers[w].stamp)
  }

  /** Drivers finish a claimed target before its lease ages out: whoever acts on a claim still holds it. */
  predicate Timely(s: State, a: Action) {
    a.Forward? || a.Return? || a.Accept? || a.Fail? ==> (At(s, a.w, Ended) || a.w !in s.workers || !Working(s.workers[a.w].phase) || Holds(s, a.w))
  }

  predicate Prompt(s: State, acts: seq<Action>)
    decreases |acts|
  {
    acts != [] ==> Timely(s, acts[0]) && Prompt(Step(s, acts[0]), acts[1..])
  }

  // ---------------------------------------------------------------- what holds in every run

  predicate IsAccepted(s: State) { s.row.Some? && s.row.value.status == Accepted }

  predicate Basic(s: State) {
    && (forall w :: w in s.workers ==>
          && s.workers[w].stamp <= s.now
          && (s.workers[w].phase == Sent ==> w in s.sent)
          && (s.workers[w].phase != Began ==> s.row.Some? || s.workers[w].phase == Ended)
          && (w in s.sent ==> s.workers[w].phase in {Sent, Refused, Ended}))
    && s.sent <= s.workers.Keys
    && s.acked <= s.sent
    && (IsAccepted(s) <==> s.acked != {})
    && s.claims == (if s.row.Some? then s.row.value.attempts else 0)
    && (s.row.Some? && s.row.value.status == InFlight ==> s.row.value.last.Some?)
  }

  lemma StepKeepsBasic(s: State, a: Action)
    requires Basic(s)
    ensures Basic(Step(s, a)) && (IsAccepted(s) ==> IsAccepted(Step(s, a)))
  {
  }

  lemma {:induction false} RunKeepsBasic(s: State, acts: seq<Action>)
    requires Basic(s)
    ensures Basic(Run(s, acts)) && (IsAccepted(s) ==> IsAccepted(Run(s, acts)))
    decreases |acts|
  {
    if acts != [] {
      StepKeepsBasic(s, acts[0]);
      RunKeepsBasic(Step(s, acts[0]), acts[1..]);
    }
  }

  /** With no assumption on timing at all: the row counts its successful claims, 'accepted' means some forward()
      returned and its write committed, and 'accepted' is never left. */
  lemma AcceptedIsEarnedAndFinal(before: seq<Action>, after: seq<Action>)
    ensures var s, s' := Run(Init(), before), Run(Run(Init(), before), after);
            && s.claims == (if s.row.Some? then s.row.value.attempts else 0)
            && (IsAccepted(s) <==> exists w :: w in s.acked)
            && s.acked <= s.sent
            && (IsAccepted(s) ==> IsAccepted(s'))
  {
    RunKeepsBasic(Init(), before);
    RunKeepsBasic(Run(Init(), before), after);
  }

  // ---------------------------------------------------------------- what the lease adds

  /** Whoever holds the target is its last claimer, the row says so, and one accepted write has committed at most. */
  predicate Leased(s: State) {
    && (forall w :: w in s.workers && Holds(s, w) ==>
          s.owner == Some(w) && s.row.Some? && s.row.value.status == InFlight && s.row.value.last == Some(s.workers[w].stamp))
    && (forall v, w :: v in s.acked && w in s.acked ==> v == w)
  }

  lemma ClaimKeepsLease(s: State, w: nat)
    requires Basic(s) && Leased(s) && At(s, w, Ensured) && s.row.Some?
    ensures Leased(ClaimStep(s, w))
  {
    var s', stamp := ClaimStep(s, w), s.workers[w].stamp;
    forall v | v in s'.workers && Holds(s', v) && v != w
      ensures s'.owner == Some(v) && s'.row.value.status == InFlight && s'.row.value.last == Some(s'.workers[v].stamp)
    {
      assert s'.workers[v] == s.workers[v] && Holds(s, v);
      LeaseEndIsExact(s.workers[v].stamp, stamp);
    }
  }

  /** The final writes: the one driver that may make them ends with them. */
  lemma MarkKeepsLease(s: State, a: Action)
    requires Basic(s) && Leased(s) && Timely(s, a) && (a.Accept? || a.Fail?)
    ensures Leased(Step(s, a))
  {
    var s' := Step(s, a);
    forall v | v in s'.workers && Holds(s', v)
      ensures s'.owner == Some(v) && s'.row.Some? && s'.row.value.status == InFlight && s'.row.value.last == Some(s'.workers[v].stamp)
    {
      assert v in s.workers && Holds(s, v);
    }
  }

  lemma StepKeepsLease(s: State, a: Action)
    requires Basic(s) && Leased(s) && Timely(s, a)
    ensures Leased(Step(s, a))
  {
    if a.Claim? && At(s, a.w, Ensured) && s.row.Some? {
      ClaimKeepsLease(s, a.w);
    } else if a.Accept? || a.Fail? {
      MarkKeepsLease(s, a);
    } else {
      var s' := Step(s, a);
      forall v | v in s'.workers && Holds(s', v)
        ensures s'.owner == Some(v) && s'.row.Some? && s'.row.value.status == InFlight && s'.row.value.last == Some(s'.workers[v].stamp)
      {
        assert v in s.workers && Holds(s, v);
      }
    }
  }

  lemma {:induction false} PromptRunKeepsLease(s: State, acts: seq<Action>)
    requires Basic(s) && Leased(s) && Prompt(s, acts)
    ensures Basic(Run(s, acts)) && Leased(Run(s, acts))
    decreases |acts|
  {
    if acts != [] {
      StepKeepsBasic(s, acts[0]);
      StepKeepsLease(s, acts[0]);
      PromptRunKeepsLease(Step(s, acts[0]), acts[1..]);
    }
  }

  predicate OneAck(s: State) { forall v, w :: v in s.acked && w in s.acked ==> v == w }

  /** One driver holds the target at a time, no forward() starts on an accepted target, one accepted write has committed
      at most, and a second copy can only have been sent because an earlier accepted write did not commit. */
  ghost predicate Exclusive(s: State) {
    && (forall v, w :: Holds(s, v) && Holds(s, w) ==> v == w)
    && (forall w :: At(s, w, Holding) && Timely(s, Forward(w)) ==> !IsAccepted(s))
    && OneAck(s)
    && (s.sent <= s.acked ==> forall v, w :: v in s.sent && w in s.sent ==> v == w)
  }

  /** If every driver finishes a claimed target before its lease ages out, the lease excludes. */
  lemma LeaseExcludes(acts: seq<Action>)
    requires Prompt(Init(), acts)
    ensures Exclusive(Run(Init(), acts))
  {
    PromptRunKeepsLease(Init(), acts);
    var s := Run(Init(), acts);
    forall w | At(s, w, Holding) && Timely(s, Forward(w)) ensures !IsAccepted(s) { assert Holds(s, w); }
    forall v, w | Holds(s, v) && Holds(s, w) ensures v == w { assert v in s.workers && w in s.workers; }
  }

  // ---------------------------------------------------------------- how quick is quick enough

  /** Whoever acts on a claim does so at most d milliseconds after the clock reading that the claim carries. */
  predicate InTime(s: State, a: Action, d: nat) {
    (a.Forward? || a.Return? || a.Accept? || a.Fail?) && a.w in s.workers && Working(s.workers[a.w].phase)
    ==> s.now <= s.workers[a.w].stamp + d
  }

  predicate Quick(s: State, acts: seq<Action>, d: nat)
    decreases |acts|
  {
    acts != [] ==> InTime(s, acts[0], d) && Quick(Step(s, acts[0]), acts[1..], d)
  }

  /** The lease lasts 899 001 to 900 000 ms, depending on the milliseconds of the stamp. */
  lemma {:induction false} QuickIsPrompt(s: State, acts: seq<Action>, d: nat)
    requires Quick(s, acts, d) && d <= 899_000
    ensures Prompt(s, acts)
    decreases |acts|
  {
    if acts != [] {
      var a := acts[0];
      if (a.Forward? || a.Return? || a.Accept? || a.Fail?) && a.w in s.workers { LeaseEndIsExact(s.workers[a.w].stamp, s.now); }
      QuickIsPrompt(Step(s, a), acts[1..], d);
    }
  }

  lemma RunFour(s: State, a: Action, b: Action, c: Action, d: Action)
    ensures Run(s, [a, b, c, d]) == Step(Step(Step(Step(s, a), b), c), d)
  {
    var s1 := Step(s, a);
    var s2 := Step(s1, b);
    var s3 := Step(s2, c);
    assert [a, b, c, d][1..] == [b, c, d] && [b, c, d][1..] == [c, d] && [c, d][1..] == [d];
    assert Run(s3, [d]) == Step(s3, d);
    assert Run(s1, [b, c, d]) == Run(s2, [c, d]) == Run(s3, [d]);
  }

  lemma {:induction false} RunAppend(s: State, a: seq<Action>, b: seq<Action>)
    ensures Run(s, a + b) == Run(Run(s, a), b)
    decreases |a|
  {
    if a == [] {
      assert a + b == b;
    } else {
      assert (a + b)[1..] == a[1..] + b;
      RunAppend(Step(s, a[0]), a[1..], b);
    }
  }

  const WAIT := [Tick(999)]
  const FIRST: seq<Action> := [Begin(0), Ensure(0), Claim(0), Forward(0)]
  const SLOW := [Tick(899_001)]
  const SECOND: seq<Action> := [Begin(1), Ensure(1), Claim(1), Forward(1)]
  const FINISH: seq<Action> := [Return(0, true), Return(1, true), Accept(0, true), Accept(1, true)]

  /** The first driver reads its clock at 999 ms and calls forward() ... */
  function FirstCalls(): State {
    State(999, Some(Row(InFlight, 1, Some(999))), map[0 := Worker(999, Calling)], Some(0), 1, {}, {})
  }

  /** ... and 899 001 ms later the second does the same. */
  function BothCall(): State {
    State(900_000, Some(Row(InFlight, 2, Some(900_000))), map[0 := Worker(999, Calling), 1 := Worker(900_000, Calling)], Some(1), 2, {}, {})
  }

  lemma {:induction false} QuickAppend(s: State, a: seq<Action>, b: seq<Action>, d: nat)
    requires Quick(s, a, d) && Quick(Run(s, a), b, d)
    ensures Quick(s, a + b, d)
    decreases |a|
  {
    if a == [] {
      assert a + b == b;
    } else {
      assert (a + b)[1..] == a[1..] + b;
      QuickAppend(Step(s, a[0]), a[1..], b, d);
    }
  }

  lemma QuickFour(s: State, a: Action, b: Action, c: Action, e: Action, d: nat)
    requires var s1 := Step(s, a); var s2 := Step(s1, b); var s3 := Step(s2, c);
             InTime(s, a, d) && InTime(s1, b, d) && InTime(s2, c, d) && InTime(s3, e, d)
    ensures Quick(s, [a, b, c, e], d)
  {
    var s1 := Step(s, a);
    var s2 := Step(s1, b);
    var s3 := Step(s2, c);
    assert [a, b, c, e][1..] == [b, c, e] && [b, c, e][1..] == [c, e] && [c, e][1..] == [e] && [e][1..] == [];
    assert Quick(s3, [e], d);
    assert Quick(s2, [c, e], d);
    assert Quick(s1, [b, c, e], d);
  }

  lemma FirstTrace(d: nat)
    ensures Run(Init(), WAIT) == Init().(now := 999) && Quick(Init(), WAIT, d)
    ensures Run(Init().(now := 999), FIRST) == FirstCalls() && Quick(Init().(now := 999), FIRST, d)
  {
    var s := Init().(now := 999);
    assert Run(s, []) == s;
    RunFour(s, FIRST[0], FIRST[1], FIRST[2], FIRST[3]);
    QuickFour(s, FIRST[0], FIRST[1], FIRST[2], FIRST[3], d);
  }

  lemma SecondTrace(d: nat)
    ensures Run(FirstCalls(), SLOW) == FirstCalls().(now := 900_000) && Quick(FirstCalls(), SLOW, d)
    ensures Run(FirstCalls().(now := 900_000), SECOND) == BothCall() && Quick(FirstCalls().(now := 900_000), SECOND, d)
  {
    var s := FirstCalls().(now := 900_000);
    assert Run(s, []) == s;
    RunFour(s, SECOND[0], SECOND[1], SECOND[2], SECOND[3]);
    var s1 := s.(workers := s.workers[1 := Worker(900_000, Ensured)]);
    assert Step(Step(s, Begin(1)), Ensure(1)) == s1;
    assert Step(Step(s1, Claim(1)), Forward(1)) == BothCall();
    QuickFour(s, SECOND[0], SECOND[1], SECOND[2], SECOND[3], d);
  }

  lemma BothFinish(d: nat)
    requires d >= 899_001
    ensures var s := Run(BothCall(), FINISH); s.acked == s.sent == {0, 1}
    ensures Quick(BothCall(), FINISH, d)
  {
    var s := BothCall();
    RunFour(s, FINISH[0], FINISH[1], FINISH[2], FINISH[3]);
    QuickFour(s, FINISH[0], FINISH[1], FINISH[2], FINISH[3], d);
  }

  /** A driver that takes 899 001 ms is overtaken, and with no crash and no lost write two copies are sent and two accepted
      writes commit. */
  lemma SlowDriverSendsTwice(d: nat)
    requires d >= 899_001
    ensures exists acts :: Quick(Init(), acts, d) && var s := Run(Init(), acts); s.acked == s.sent == {0, 1}
  {
    var begun, late := WAIT + FIRST, SLOW + SECOND;
    FirstTrace(d);
    RunAppend(Init(), WAIT, FIRST); QuickAppend(Init(), WAIT, FIRST, d);
    SecondTrace(d);
    RunAppend(FirstCalls(), SLOW, SECOND); QuickAppend(FirstCalls(), SLOW, SECOND, d);
    BothFinish(d);
    RunAppend(FirstCalls(), late, FINISH); QuickAppend(FirstCalls(), late, FINISH, d);
    RunAppend(Init(), begun, late + FINISH); QuickAppend(Init(), begun, late + FINISH, d);
    var acts := begun + (late + FINISH);
    assert Quick(Init(), acts, d) && Run(Init(), acts).acked == Run(Init(), acts).sent == {0, 1};
  }

  /** The exact threshold: the lease excludes in every run in which drivers act on a claim for at most d milliseconds, if
      and only if d is at most 899 000; and even one accepted write at most needs no less. */
  lemma ExclusiveIffQuick(d: nat)
    ensures (forall acts :: Quick(Init(), acts, d) ==> Exclusive(Run(Init(), acts))) <==> d <= 899_000
    ensures (forall acts :: Quick(Init(), acts, d) ==> OneAck(Run(Init(), acts))) <==> d <= 899_000
  {
    if d <= 899_000 {
      forall acts | Quick(Init(), acts, d) ensures Exclusive(Run(Init(), acts)) {
        QuickIsPrompt(Init(), acts, d);
        LeaseExcludes(acts);
      }
    } else {
      SlowDriverSendsTwice(d);
      var acts :| Quick(Init(), acts, d) && Run(Init(), acts).acked == {0, 1};
      var s := Run(Init(), acts);
      assert 0 in s.acked && 1 in s.acked;
    }
  }

  // ---------------------------------------------------------------- a driver that is not disturbed

  function DriverOf(w: nat, luck: Luck): seq<Action> {
    [Begin(w), Ensure(w), Claim(w), Forward(w)] + [Return(w, luck.forwards), Accept(w, luck.marks), Fail(w), Tick(0)]
  }

  /** A driver about to hear whether its copy was taken. */
  function CallingOn(s: State, w: nat): State
    requires s.row.Some?
  {
    s.(row := Some(ClaimedRow(s.row.value, s.now)), workers := s.workers[w := Worker(s.now, Calling)], owner := Some(w), claims := s.claims + 1)
  }

  lemma DriverCalls(s: State, w: nat)
    requires w !in s.workers && s.row.Some? && Claimable(s.row.value, s.now)
    ensures Run(s, [Begin(w), Ensure(w), Claim(w), Forward(w)]) == CallingOn(s, w)
  {
    RunFour(s, Begin(w), Ensure(w), Claim(w), Forward(w));
    var s1 := s.(workers := s.workers[w := Worker(s.now, Ensured)]);
    assert s.workers[w := Worker(s.now, Began)][w := Worker(s.now, Ensured)] == s1.workers;
    assert Step(Step(s, Begin(w)), Ensure(w)) == s1;
    assert s1.workers[w := Worker(s.now, Calling)] == CallingOn(s, w).workers;
  }

  lemma CallEnds(s: State, w: nat, luck: Luck)
    requires At(s, w, Calling) && s.row.Some?
    ensures var s' := Run(s, [Return(w, luck.forwards), Accept(w, luck.marks), Fail(w), Tick(0)]);
            && At(s', w, Ended)
            && s'.row == Some(if luck.forwards && luck.marks then AcceptedRow(s.row.value) else FailedRow(s.row.value))
            && s'.sent == (if luck.forwards then s.sent + {w} else s.sent)
  {
    RunFour(s, Return(w, luck.forwards), Accept(w, luck.marks), Fail(w), Tick(0));
  }

  lemma BusyDriverEnds(s: State, w: nat, luck: Luck)
    requires w !in s.workers && s.row.Some? && !Claimable(s.row.value, s.now)
    ensures var s' := Run(s, DriverOf(w, luck)); At(s', w, Ended) && s'.row == s.row && s'.sent == s.sent
  {
    var first := [Begin(w), Ensure(w), Claim(w), Forward(w)];
    RunFour(s, Begin(w), Ensure(w), Claim(w), Forward(w));
    var s1 := s.(workers := s.workers[w := Worker(s.now, Ended)]);
    assert s.workers[w := Worker(s.now, Began)][w := Worker(s.now, Ensured)][w := Worker(s.now, Ended)] == s1.workers;
    assert Run(s, first) == s1;
    RunAppend(s, first, [Return(w, luck.forwards), Accept(w, luck.marks), Fail(w), Tick(0)]);
    RunFour(s1, Return(w, luck.forwards), Accept(w, luck.marks), Fail(w), Tick(0));
  }

  /** From any state, a driver that nothing disturbs does to the row what one driver's run over its targets does to each. */
  lemma DriverIsDriven(s: State, w: nat, luck: Luck)
    requires w !in s.workers
    ensures var s', r := Run(s, DriverOf(w, luck)), if s.row.None? then NEW_ROW else s.row.value;
            && At(s', w, Ended) && s'.row == Some(Driven(s.row, s.now, luck))
            && s'.sent == if Claimable(r, s.now) && luck.forwards then s.sent + {w} else s.sent
    decreases s.row.None?
  {
    if s.row.None? {
      var s0 := s.(row := Some(NEW_ROW));
      var first := [Begin(w), Ensure(w), Claim(w), Forward(w)];
      RunFour(s, Begin(w), Ensure(w), Claim(w), Forward(w));
      RunFour(s0, Begin(w), Ensure(w), Claim(w), Forward(w));
      assert Step(Step(s, Begin(w)), Ensure(w)) == Step(Step(s0, Begin(w)), Ensure(w));
      RunAppend(s, first, [Return(w, luck.forwards), Accept(w, luck.marks), Fail(w), Tick(0)]);
      RunAppend(s0, first, [Return(w, luck.forwards), Accept(w, luck.marks), Fail(w), Tick(0)]);
      DriverIsDriven(s0, w, luck);
    } else if Claimable(s.row.value, s.now) {
      DriverCalls(s, w);
      CallEnds(CallingOn(s, w), w, luck);
      RunAppend(s, [Begin(w), Ensure(w), Claim(w), Forward(w)], [Return(w, luck.forwards), Accept(w, luck.marks), Fail(w), Tick(0)]);
    } else {
      BusyDriverEnds(s, w, luck);
    }
  }
}
