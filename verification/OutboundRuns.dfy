/** Concrete runs of the outbound protocol: where its guarantees end, and that they end exactly there. */
module OutboundRuns {
  import opened Options
  import opened Outbound
  import opened OutboundFailures

  const FIRST: seq<Action> := [StartSend(0, 7), Look(0), Insert(0)]
  const SECOND: seq<Action> := [Archive(0, true), Call(0)]
  const THIRD: seq<Action> := [Arrive(0, Accepted), Timeout(0)]

  /** A first call is accepted but its answer is lost. */
  const LOST: seq<Action> := FIRST + (SECOND + THIRD)

  function AfterInsert(p: ProviderId): State {
    Init(p).(row := Some(Row(0, 7, p, Sending, false)), past := Init(p).past.(creator := Some(0)),
             workers := map[0 := Worker(p, Archiving(Grant(p, 7, 0)))])
  }

  function AfterCall(p: ProviderId): State {
    AfterInsert(p).(row := Some(Row(0, 7, p, Sending, true)), past := AfterInsert(p).past.(everArchived := true, calls := 1),
                    workers := map[0 := Worker(p, Waiting)], network := map[0 := Grant(p, 7, 0)])
  }

  /** One acceptance at time 0, and nobody knows of it. */
  function AcceptedUnknown(p: ProviderId): State {
    AfterCall(p).(workers := map[0 := Worker(p, Done)], network := map[], answers := map[0 := Reply(Accepted, false)],
                  accepted := [Acceptance(p, 0, 7)])
  }

  lemma FirstTrace(c: Config, p: ProviderId)
    ensures Run(c, Init(p), FIRST) == AfterInsert(p)
  {
  }

  lemma SecondTrace(c: Config, p: ProviderId)
    ensures Run(c, AfterInsert(p), SECOND) == AfterCall(p)
  {
  }

  lemma ThirdTrace(c: Config, p: ProviderId)
    ensures Run(c, AfterCall(p), THIRD) == AcceptedUnknown(p)
  {
    RunTwo(c, AfterCall(p), THIRD[0], THIRD[1]);
    var s1 := AfterCall(p).(network := map[], answers := map[0 := Reply(Accepted, false)], accepted := [Acceptance(p, 0, 7)]);
    assert Step(c, AfterCall(p), THIRD[0]) == s1;
  }

  lemma LostAnswer(c: Config, p: ProviderId)
    ensures Run(c, Init(p), LOST) == AcceptedUnknown(p)
  {
    FirstTrace(c, p); SecondTrace(c, p); ThirdTrace(c, p);
    RunAppend(c, Init(p), FIRST, SECOND + THIRD);
    RunAppend(c, AfterInsert(p), SECOND, THIRD);
  }

  /** A second request that passed its window check at time `since`, about to call provider q. */
  function Passed(p: ProviderId, q: ProviderId, since: nat): State {
    AcceptedUnknown(p).(now := since, active := q, past := AcceptedUnknown(p).past.(switched := p != q),
                        workers := map[0 := Worker(p, Done), 1 := Worker(q, Resuming(Grant(q, 7, since), true, p == q))])
  }

  /** What is left of that request, if its call takes `delay` to arrive. */
  function Landing(delay: nat): seq<Action> {
    [WriteSending(1), Call(1)] + [Tick(delay), Arrive(1, Accepted)]
  }

  /** That request with its call on the network. */
  function CallOut(p: ProviderId, q: ProviderId, since: nat): State {
    var s := Passed(p, q, since);
    s.(workers := s.workers[1 := Worker(q, Waiting)], network := map[1 := Grant(q, 7, since)], past := s.past.(calls := 2))
  }

  /** That request with its 'sending' write done. */
  function SendingWritten(p: ProviderId, q: ProviderId, since: nat): State {
    var s := Passed(p, q, since);
    s.(workers := s.workers[1 := Worker(q, Ready(Grant(q, 7, since)))])
  }

  lemma SendingIsWritten(c: Config, p: ProviderId, q: ProviderId, since: nat)
    ensures Step(c, Passed(p, q, since), WriteSending(1)) == SendingWritten(p, q, since)
  {
  }

  lemma CallIsMade(c: Config, p: ProviderId, q: ProviderId, since: nat)
    ensures Step(c, SendingWritten(p, q, since), Call(1)) == CallOut(p, q, since)
  {
    assert !AnyUnsettled(c, SendingWritten(p, q, since));
  }

  lemma CallGoesOut(c: Config, p: ProviderId, q: ProviderId, since: nat)
    ensures Run(c, Passed(p, q, since), [WriteSending(1), Call(1)]) == CallOut(p, q, since)
  {
    RunTwo(c, Passed(p, q, since), WriteSending(1), Call(1));
    SendingIsWritten(c, p, q, since);
    CallIsMade(c, p, q, since);
  }

  /** The one message of a row pinned to p has been accepted twice. */
  predicate IsDoubled(s: State, p: ProviderId) { s.row.Some? && s.row.value.provider == p && |s.accepted| == 2 }

  lemma CallArrives(c: Config, p: ProviderId, q: ProviderId, since: nat, delay: nat)
    requires delay <= c.slack && !Remembered(c, [Acceptance(p, 0, 7)], q, since + delay)
    ensures IsDoubled(Run(c, CallOut(p, q, since), [Tick(delay), Arrive(1, Accepted)]), p)
  {
    RunTwo(c, CallOut(p, q, since), Tick(delay), Arrive(1, Accepted));
  }

  lemma CallLands(c: Config, p: ProviderId, q: ProviderId, since: nat, delay: nat)
    requires delay <= c.slack && !Remembered(c, [Acceptance(p, 0, 7)], q, since + delay)
    ensures IsDoubled(Run(c, Passed(p, q, since), Landing(delay)), p)
  {
    RunAppend(c, Passed(p, q, since), [WriteSending(1), Call(1)], [Tick(delay), Arrive(1, Accepted)]);
    CallGoesOut(c, p, q, since);
    CallArrives(c, p, q, since, delay);
  }

  /** A retry that looks at the row at the very end of the window ... */
  lemma LateRetryPasses(c: Config, p: ProviderId)
    requires Window(p).Some?
    ensures Run(c, AcceptedUnknown(p), [Tick(Window(p).value), StartRetry(1), Look(1)]) == Passed(p, p, Window(p).value)
  {
    RunThree(c, AcceptedUnknown(p), Tick(Window(p).value), StartRetry(1), Look(1));
  }

  /** ... or a send of the same payload after OUTBOUND_PROVIDER was changed. */
  lemma SwitchedSendPasses(c: Config, p: ProviderId, q: ProviderId)
    requires p != q && Window(p).Some?
    ensures Run(c, AcceptedUnknown(p), [SwitchProvider(q), StartSend(1, 7), Look(1)]) == Passed(p, q, 0)
  {
    RunThree(c, AcceptedUnknown(p), SwitchProvider(q), StartSend(1, 7), Look(1));
  }

  lemma LateCallDoubles(c: Config, p: ProviderId, late: seq<Action>)
    requires !Safe(c, p) && late == [Tick(Window(p).value), StartRetry(1), Look(1)]
    ensures exists acts :: FixedProvider(acts) && |Run(c, Init(p), acts).accepted| == 2
  {
    LostAnswer(c, p);
    LateRetryPasses(c, p);
    CallLands(c, p, p, Window(p).value, c.slack);
    RunAppend(c, Init(p), LOST, late + Landing(c.slack));
    RunAppend(c, AcceptedUnknown(p), late, Landing(c.slack));
    assert FixedProvider(LOST + (late + Landing(c.slack)));
  }

  /** The window rule is exactly right: with a fixed provider, no run has two acceptances if and only if
      window + slack is below the lifetime of the provider's key (or there is no window at all). */
  lemma AtMostOnceIffSafe(c: Config, p: ProviderId)
    ensures Safe(c, p) <==> forall acts :: FixedProvider(acts) ==> |Run(c, Init(p), acts).accepted| <= 1
  {
    if Safe(c, p) {
      forall acts | FixedProvider(acts) ensures |Run(c, Init(p), acts).accepted| <= 1 { AtMostOnce(c, p, acts); }
    } else {
      var late := [Tick(Window(p).value), StartRetry(1), Look(1)];
      LateCallDoubles(c, p, late);
    }
  }

  ghost predicate NeverTwice(c: Config, p: ProviderId) {
    forall acts :: FixedProvider(acts) ==> |Run(c, Init(p), acts).accepted| <= 1
  }

  /** The three deployments: no run with a fixed provider has two acceptances if and only if calls take less than an hour
      (under Resend's 24 hours) or five minutes (under Brevo's 30); at Cloudflare none has in any case. */
  lemma DeployedWindows(slack: nat)
    ensures var c := Config(24 * 60 * 60_000, 30 * 60_000, slack);
            && (NeverTwice(c, Resend) <==> slack < 60 * 60_000)
            && (NeverTwice(c, Brevo) <==> slack < 5 * 60_000)
            && NeverTwice(c, Cloudflare)
  {
    var c := Config(24 * 60 * 60_000, 30 * 60_000, slack);
    AtMostOnceIffSafe(c, Resend);
    AtMostOnceIffSafe(c, Brevo);
    AtMostOnceIffSafe(c, Cloudflare);
  }

  /** The condition that the code could check before it resumes a row is enough, and the windows are exactly right for it:
      while no send resumes through another provider, no run has two acceptances if and only if every window is safe. */
  lemma PinnedAtMostOnceIffSafe(c: Config)
    ensures (forall p :: Safe(c, p))
            <==> forall p, acts :: AllPinned(c, Init(p), acts) ==> |Run(c, Init(p), acts).accepted| <= 1
  {
    if forall p :: Safe(c, p) {
      forall p, acts | AllPinned(c, Init(p), acts) ensures |Run(c, Init(p), acts).accepted| <= 1 { AtMostOncePinned(c, p, acts); }
    } else {
      var p :| !Safe(c, p);
      LateCallDoubles(c, p, [Tick(Window(p).value), StartRetry(1), Look(1)]);
      var acts :| FixedProvider(acts) && |Run(c, Init(p), acts).accepted| == 2;
      FixedIsPinned(c, Init(p), acts);
    }
  }

  /** Changing OUTBOUND_PROVIDER between a lost answer and a resend loses the guarantee for every margin:
      sendMessage checks the pinned provider's window but delivers through the active one. */
  lemma SwitchingProviderDoubles(c: Config, p: ProviderId, q: ProviderId)
    requires p != q && Window(p).Some?
    ensures exists acts :: IsDoubled(Run(c, Init(p), acts), p)
  {
    var switched := [SwitchProvider(q), StartSend(1, 7), Look(1)];
    LostAnswer(c, p);
    SwitchedSendPasses(c, p, q);
    CallLands(c, p, q, 0, 0);
    RunAppend(c, Init(p), LOST, switched + Landing(0));
    RunAppend(c, AcceptedUnknown(p), switched, Landing(0));
    assert IsDoubled(Run(c, Init(p), LOST + (switched + Landing(0))), p);
  }

  /** Over all runs, switches included: the message of a row can be accepted twice if and only if its provider has a
      window, so that a send may resume it at all. */
  lemma SwitchingDoublesIffWindow(c: Config, p: ProviderId)
    ensures (exists start, acts :: IsDoubled(Run(c, Init(start), acts), p)) <==> Window(p).Some?
  {
    if Window(p).Some? {
      SwitchingProviderDoubles(c, p, Cloudflare);
    } else {
      forall start, acts ensures !IsDoubled(Run(c, Init(start), acts), p) { NoWindowAtMostOnce(c, start, acts); }
    }
  }

  // ---------------------------------------------------------------- 'failed' although accepted

  /** The message was accepted and its row says 'failed'. */
  predicate IsAcceptedAndFailed(s: State) { IsFailed(s) && s.accepted != [] }

  /** What went wrong: an expired-window write, a call beside another one, a call on a row that says 'failed', the refusal
      of a repeated call; and whether a delivery event came, and whether OUTBOUND_PROVIDER was changed. */
  function Flags(s: State): (bool, bool, bool, bool, bool, bool) {
    (s.past.expired, s.past.overlapped, s.past.stale, s.past.rebuffed, s.past.reported, s.past.switched)
  }

  predicate OnlyExpired(s: State) { Flags(s) == (true, false, false, false, false, false) }
  predicate OnlyOverlapped(s: State) { Flags(s) == (false, true, false, false, false, false) }
  predicate OnlyStale(s: State) { Flags(s) == (false, false, true, false, false, false) }
  predicate OnlyRebuffed(s: State) { Flags(s) == (false, false, false, true, false, false) }
  predicate OnlyReported(s: State) { Flags(s) == (false, false, false, false, true, false) }

  function PastWindow(p: ProviderId): nat { if Window(p).Some? then Window(p).value + 1 else 0 }

  /** The state s, when its window is over and a send has written so. */
  function Expired(p: ProviderId, s: State): State
    requires s.row.Some?
  {
    s.(now := PastWindow(p), row := Some(s.row.value.(status := Failed(ByExpiry))),
       workers := map[0 := Worker(p, Done), 1 := Worker(p, Done)], past := s.past.(expired := true, saidFailed := true))
  }

  const LATER: seq<Action> := [StartSend(1, 7), Look(1), WriteFailed(1)]

  lemma LaterSendWritesFailed(c: Config, p: ProviderId, s: State)
    requires s.row.Some? && s.row.value == Row(0, 7, p, Sending, s.row.value.archived) && s.active == p && s.now == 0
    requires s.workers == map[0 := Worker(p, Done)]
    ensures Run(c, s, [Tick(PastWindow(p))] + LATER) == Expired(p, s)
  {
    var s0 := s.(now := PastWindow(p));
    assert Run(c, s, [Tick(PastWindow(p))]) == s0 by { RunOne(c, s, Tick(PastWindow(p))); }
    RunAppend(c, s, [Tick(PastWindow(p))], LATER);
    RunThree(c, s0, StartSend(1, 7), Look(1), WriteFailed(1));
    var s1 := s0.(workers := s0.workers[1 := Worker(p, SendStarted(7))]);
    assert Step(c, s0, StartSend(1, 7)) == s1;
    var s2 := s.(now := PastWindow(p), workers := s.workers[1 := Worker(p, Expiring)]);
    assert Step(c, s1, Look(1)) == s2;
    FailedIsWritten(c, p, s);
  }

  lemma FailedIsWritten(c: Config, p: ProviderId, s: State)
    requires s.row.Some? && s.workers == map[0 := Worker(p, Done)]
    ensures var s2 := s.(now := PastWindow(p), workers := s.workers[1 := Worker(p, Expiring)]);
            Step(c, s2, WriteFailed(1)) == Expired(p, s)
  {
  }

  /** The row is there, and its request died. */
  function Unsent(p: ProviderId): State { AfterInsert(p).(workers := map[0 := Worker(p, Done)]) }

  lemma RequestDies(c: Config, p: ProviderId)
    ensures Run(c, Init(p), FIRST + [Die(0)]) == Unsent(p)
  {
    FirstTrace(c, p);
    RunAppend(c, Init(p), FIRST, [Die(0)]);
    RunOne(c, AfterInsert(p), Die(0));
  }

  /** At every provider, a request that comes when the window has passed writes 'failed' over a lost answer, and over a
      message that was never sent alike. */
  lemma FailedMayBeAccepted(c: Config, p: ProviderId)
    ensures exists acts :: var s := Run(c, Init(p), acts); IsAcceptedAndFailed(s) && OnlyExpired(s)
    ensures exists acts :: var s := Run(c, Init(p), acts); IsFailed(s) && s.accepted == [] && OnlyExpired(s)
  {
    var later := [Tick(PastWindow(p))] + LATER;
    LostAnswer(c, p);
    RequestDies(c, p);
    RunAppend(c, Init(p), LOST, later);
    RunAppend(c, Init(p), FIRST + [Die(0)], later);
    LaterSendWritesFailed(c, p, AcceptedUnknown(p));
    LaterSendWritesFailed(c, p, Unsent(p));
    var s, s' := Run(c, Init(p), LOST + later), Run(c, Init(p), FIRST + [Die(0)] + later);
    assert IsAcceptedAndFailed(s) && OnlyExpired(s) && IsFailed(s') && s'.accepted == [] && OnlyExpired(s');
  }

  // ---------------------------------------------------------------- delivery events

  const CALLED: seq<Action> := FIRST + SECOND
  const ANSWERED: seq<Action> := [Arrive(0, Accepted), ReadAnswer(0)]

  /** The provider has accepted and its answer has been read. */
  function AcceptedKnown(p: ProviderId): State {
    AcceptedUnknown(p).(workers := map[0 := Worker(p, Confirmed)])
  }

  lemma AnswerIsRead(c: Config, p: ProviderId)
    ensures Run(c, AfterCall(p), ANSWERED) == AcceptedKnown(p)
  {
    RunTwo(c, AfterCall(p), Arrive(0, Accepted), ReadAnswer(0));
    var s1 := AfterCall(p).(network := map[], answers := map[0 := Reply(Accepted, false)], accepted := [Acceptance(p, 0, 7)]);
    assert Step(c, AfterCall(p), Arrive(0, Accepted)) == s1;
  }

  lemma AnsweredTrace(c: Config, p: ProviderId)
    ensures Run(c, Init(p), CALLED + ANSWERED) == AcceptedKnown(p)
  {
    FirstTrace(c, p); SecondTrace(c, p);
    AnswerIsRead(c, p);
    RunAppend(c, Init(p), FIRST, SECOND);
    RunAppend(c, Init(p), CALLED, ANSWERED);
  }

  lemma EventMarksFailed(c: Config, p: ProviderId)
    ensures var s := Run(c, AcceptedKnown(p), [Finish(0), DeliveryEvent(AllFailed)]); IsAcceptedAndFailed(s) && OnlyReported(s)
  {
    RunTwo(c, AcceptedKnown(p), Finish(0), DeliveryEvent(AllFailed));
  }

  /** At every provider, a delivery event can mark a message that was accepted and 'sent' as failed. */
  lemma ReportedMayBeAccepted(c: Config, p: ProviderId)
    ensures exists acts :: var s := Run(c, Init(p), acts); IsAcceptedAndFailed(s) && OnlyReported(s)
  {
    var acts, last := CALLED + ANSWERED, [Finish(0), DeliveryEvent(AllFailed)];
    AnsweredTrace(c, p);
    EventMarksFailed(c, p);
    RunAppend(c, Init(p), acts, last);
    var s := Run(c, Init(p), acts + last);
    assert IsAcceptedAndFailed(s) && OnlyReported(s);
  }

  lemma SenderDies(c: Config, p: ProviderId)
    ensures Run(c, AcceptedKnown(p), [Die(0)]) == AcceptedUnknown(p)
  {
    RunOne(c, AcceptedKnown(p), Die(0));
  }

  lemma EventTakesBack(c: Config, p: ProviderId)
    ensures var s := Run(c, Expired(p, AcceptedUnknown(p)), [DeliveryEvent(SomethingElse)]);
            s.past.expired && s.accepted != [] && !IsFailed(s)
  {
    RunOne(c, Expired(p, AcceptedUnknown(p)), DeliveryEvent(SomethingElse));
  }

  /** At every provider, a delivery event can take an expired-window write back: the answer is read, the closing write fails,
      a later send writes 'failed', and then the delivery is reported. */
  lemma ExpiryMayBeTakenBack(c: Config, p: ProviderId)
    ensures exists acts :: var s := Run(c, Init(p), acts); s.past.expired && s.accepted != [] && !IsFailed(s)
  {
    var acts, later, last := CALLED + ANSWERED, [Tick(PastWindow(p))] + LATER, [DeliveryEvent(SomethingElse)];
    AnsweredTrace(c, p);
    SenderDies(c, p);
    LaterSendWritesFailed(c, p, AcceptedUnknown(p));
    EventTakesBack(c, p);
    RunAppend(c, Init(p), acts, [Die(0)]);
    RunAppend(c, Init(p), acts + [Die(0)], later);
    RunAppend(c, Init(p), acts + [Die(0)] + later, last);
    var s := Run(c, Init(p), acts + [Die(0)] + later + last);
    assert s.past.expired && s.accepted != [] && !IsFailed(s);
  }

  // ---------------------------------------------------------------- refusals

  /** One call is out, and a retry has passed its window check beside it. */
  function SecondReady(p: ProviderId): State {
    AfterCall(p).(workers := map[0 := Worker(p, Waiting), 1 := Worker(p, Ready(Grant(p, 7, 0)))])
  }

  const BESIDE: seq<Action> := [StartRetry(1), Look(1), WriteSending(1)]

  lemma SecondGetsReady(c: Config, p: ProviderId)
    requires Window(p).Some?
    ensures Run(c, Init(p), FIRST + (SECOND + BESIDE)) == SecondReady(p)
  {
    FirstTrace(c, p); SecondTrace(c, p);
    RunAppend(c, Init(p), FIRST, SECOND + BESIDE);
    RunAppend(c, AfterInsert(p), SECOND, BESIDE);
    var s := AfterCall(p);
    RunThree(c, s, StartRetry(1), Look(1), WriteSending(1));
    var s1 := s.(workers := s.workers[1 := Worker(p, RetryStarted)]);
    assert Step(c, s, StartRetry(1)) == s1;
    var s2 := s.(workers := s.workers[1 := Worker(p, Resuming(Grant(p, 7, 0), true, true))]);
    assert Step(c, s1, Look(1)) == s2;
  }

  const BOTH_OUT: seq<Action> := [Call(1), Arrive(0, Refused), Arrive(1, Accepted), ReadAnswer(0)]
  const ONE_AFTER_THE_OTHER: seq<Action> := [Arrive(0, Refused), ReadAnswer(0), Call(1), Arrive(1, Accepted)]

  /** Both calls are out ... */
  function BothOut(p: ProviderId): State {
    SecondReady(p).(workers := map[0 := Worker(p, Waiting), 1 := Worker(p, Waiting)], network := map[0 := Grant(p, 7, 0), 1 := Grant(p, 7, 0)],
                    past := SecondReady(p).past.(calls := 2, overlapped := true))
  }

  /** ... and answered. */
  function BothAnswered(p: ProviderId): State {
    BothOut(p).(network := map[], answers := map[0 := Reply(Refused, false), 1 := Reply(Accepted, false)], accepted := [Acceptance(p, 0, 7)])
  }

  lemma BothGoOut(c: Config, p: ProviderId)
    ensures Step(c, SecondReady(p), Call(1)) == BothOut(p)
  {
    assert AnyUnsettled(c, SecondReady(p)) by { assert 0 in SecondReady(p).network && Unsettled(c, SecondReady(p), 0); }
    assert CallStep(c, SecondReady(p), 1).network == BothOut(p).network;
  }

  lemma BothAreAnswered(c: Config, p: ProviderId)
    ensures Step(c, Step(c, BothOut(p), Arrive(0, Refused)), Arrive(1, Accepted)) == BothAnswered(p)
  {
    var s := BothOut(p).(network := map[1 := Grant(p, 7, 0)], answers := map[0 := Reply(Refused, false)]);
    assert Step(c, BothOut(p), Arrive(0, Refused)) == s;
  }

  lemma BothCalled(c: Config, p: ProviderId)
    ensures var s := Run(c, SecondReady(p), BOTH_OUT); IsAcceptedAndFailed(s) && OnlyOverlapped(s)
  {
    RunFour(c, SecondReady(p), Call(1), Arrive(0, Refused), Arrive(1, Accepted), ReadAnswer(0));
    BothGoOut(c, p);
    BothAreAnswered(c, p);
  }

  /** The first call has been refused and the refusal read; the second has not been made yet ... */
  function FirstRefused(p: ProviderId): State {
    SecondReady(p).(row := Some(Row(0, 7, p, Failed(ByRefusal), true)), network := map[], answers := map[0 := Reply(Refused, false)],
                    workers := map[0 := Worker(p, Done), 1 := Worker(p, Ready(Grant(p, 7, 0)))])
  }

  /** ... and here it is out. */
  function SecondOut(p: ProviderId): State {
    FirstRefused(p).(workers := map[0 := Worker(p, Done), 1 := Worker(p, Waiting)], network := map[1 := Grant(p, 7, 0)],
                     past := FirstRefused(p).past.(calls := 2, stale := true))
  }

  lemma FirstIsRefused(c: Config, p: ProviderId)
    ensures Step(c, Step(c, SecondReady(p), Arrive(0, Refused)), ReadAnswer(0)) == FirstRefused(p)
  {
    var s := RefusalOut(p);
    assert Step(c, SecondReady(p), Arrive(0, Refused)) == s;
    RefusalIsRead(c, p);
  }

  function RefusalOut(p: ProviderId): State {
    SecondReady(p).(network := map[], answers := map[0 := Reply(Refused, false)])
  }

  lemma RefusalIsRead(c: Config, p: ProviderId)
    ensures Step(c, RefusalOut(p), ReadAnswer(0)) == FirstRefused(p)
  {
  }

  lemma SecondGoesOut(c: Config, p: ProviderId)
    ensures Step(c, FirstRefused(p), Call(1)) == SecondOut(p)
  {
  }

  lemma CalledAfterRefusal(c: Config, p: ProviderId)
    ensures var s := Run(c, SecondReady(p), ONE_AFTER_THE_OTHER); IsAcceptedAndFailed(s) && OnlyStale(s)
  {
    RunFour(c, SecondReady(p), Arrive(0, Refused), ReadAnswer(0), Call(1), Arrive(1, Accepted));
    FirstIsRefused(c, p);
    SecondGoesOut(c, p);
  }

  const AGAIN: seq<Action> := [StartRetry(1), Look(1)]
  const REBUFFED: seq<Action> := [Arrive(1, Refused), ReadAnswer(1)]

  /** The second call's repetition of the key has been refused. */
  function Rebuffed(p: ProviderId): State {
    CallOut(p, p, 0).(network := map[], answers := map[0 := Reply(Accepted, false), 1 := Reply(Refused, true)])
  }

  lemma RepetitionIsRefused(c: Config, p: ProviderId)
    requires Window(p).Some? && Ttl(c, p).value > 0
    ensures Step(c, CallOut(p, p, 0), Arrive(1, Refused)) == Rebuffed(p)
  {
    var s := CallOut(p, p, 0);
    assert s.accepted[0] == Acceptance(p, 0, 7) && s.accepted[0] in s.accepted;
    assert Remembered(c, s.accepted, p, s.now);
  }

  lemma RetryPasses(c: Config, p: ProviderId)
    requires Window(p).Some?
    ensures Run(c, AcceptedUnknown(p), AGAIN) == Passed(p, p, 0)
  {
    RunTwo(c, AcceptedUnknown(p), StartRetry(1), Look(1));
  }

  lemma RebuffIsRead(c: Config, p: ProviderId)
    ensures var s := Step(c, Rebuffed(p), ReadAnswer(1)); IsAcceptedAndFailed(s) && OnlyRebuffed(s)
  {
  }

  lemma CalledAgain(c: Config, p: ProviderId)
    requires Window(p).Some? && Ttl(c, p).value > 0
    ensures var s := Run(c, AcceptedUnknown(p), AGAIN + [WriteSending(1), Call(1)] + REBUFFED);
            IsAcceptedAndFailed(s) && OnlyRebuffed(s)
  {
    var called := [WriteSending(1), Call(1)];
    RetryPasses(c, p);
    CallGoesOut(c, p, p, 0);
    RepetitionIsRefused(c, p);
    RebuffIsRead(c, p);
    RunAppend(c, AcceptedUnknown(p), AGAIN, called);
    RunAppend(c, AcceptedUnknown(p), AGAIN + called, REBUFFED);
    RunTwo(c, CallOut(p, p, 0), Arrive(1, Refused), ReadAnswer(1));
  }

  /** Within a window, one call can be refused and read while another, made beside it or afterwards, is accepted; and a
      message whose first answer was lost can be refused when it is sent again, although the provider knows its key. */
  lemma RefusedMayBeAccepted(c: Config, p: ProviderId)
    requires Window(p).Some?
    ensures exists acts :: var s := Run(c, Init(p), acts); IsAcceptedAndFailed(s) && OnlyOverlapped(s)
    ensures exists acts :: var s := Run(c, Init(p), acts); IsAcceptedAndFailed(s) && OnlyStale(s)
    ensures Ttl(c, p).value > 0 ==> exists acts :: var s := Run(c, Init(p), acts); IsAcceptedAndFailed(s) && OnlyRebuffed(s)
  {
    var acts := FIRST + (SECOND + BESIDE);
    SecondGetsReady(c, p);
    RunAppend(c, Init(p), acts, BOTH_OUT);
    RunAppend(c, Init(p), acts, ONE_AFTER_THE_OTHER);
    BothCalled(c, p);
    CalledAfterRefusal(c, p);
    var s, s' := Run(c, Init(p), acts + BOTH_OUT), Run(c, Init(p), acts + ONE_AFTER_THE_OTHER);
    assert IsAcceptedAndFailed(s) && OnlyOverlapped(s) && IsAcceptedAndFailed(s') && OnlyStale(s');
    if Ttl(c, p).value > 0 {
      var again := AGAIN + [WriteSending(1), Call(1)] + REBUFFED;
      LostAnswer(c, p);
      CalledAgain(c, p);
      RunAppend(c, Init(p), LOST, again);
      var s'' := Run(c, Init(p), LOST + again);
      assert IsAcceptedAndFailed(s'') && OnlyRebuffed(s'');
    }
  }
}
