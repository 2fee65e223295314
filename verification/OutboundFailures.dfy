/**
What a row that says 'failed' says of the message.  The status alone does not say that it was
not accepted: the write for an expired window does not know the outcome, a repeated call can
be refused after the first was accepted, a delivery event reports what became of an accepted
message, a refusal of one call can be read while another is accepted, and a call goes out
whatever the row says by then.
*/
module OutboundFailures {
  import opened Options
  import opened Outbound

  predicate Called(ph: Phase) { ph.Waiting? || ph.Confirmed? || ph.Done? }

  /** Whose calls are out or answered, each in one of the two states. */
  ghost predicate CallersOk(s: State) {
    && (forall w :: w in s.network || w in s.answers ==> w in s.workers && Called(s.workers[w].phase))
    && (forall w :: w in s.network ==> w !in s.answers)
  }

  /** Every call was made while no other was unsettled, and on a row that did not say 'failed'. */
  predicate OneByOne(s: State) { !s.past.overlapped && !s.past.stale }

  /** Besides, no request expired the row, no refusal of a repeated call was read, and no delivery event came. */
  predicate Careful(s: State) { OneByOne(s) && !s.past.expired && !s.past.rebuffed && !s.past.reported }

  predicate IsFailed(s: State) { s.row.Some? && s.row.value.status.Failed? }

  /** The row was marked by the refusal of a call that repeated nothing. */
  predicate WasRefused(s: State) { s.row.Some? && s.row.value.status == Failed(ByRefusal) }

  /** An answer, not yet read, that refuses a call which repeated nothing. */
  predicate RefusalWaits(s: State, w: nat) { Unread(s, w) && s.answers[w] == Reply(Refused, false) }

  /** One call at a time; such a refusal was the last word; and once it is written there is nothing left to hope for. */
  ghost predicate Orderly(c: Config, s: State) {
    && (forall v, w :: Unsettled(c, s, v) && Unsettled(c, s, w) ==> v == w)
    && (forall w :: RefusalWaits(s, w) ==> s.accepted == [])
    && (WasRefused(s) ==> s.accepted == [] && forall w :: !Unsettled(c, s, w))
  }

  /** Who repeats a call or hears of a delivery has had the message accepted, and no cause comes from nothing. */
  predicate CausesOk(s: State) {
    && (forall w :: w in s.answers && s.answers[w].repeated ==> s.accepted != [])
    && (IsFailed(s) ==>
          match s.row.value.status.cause
          case ByExpiry => s.past.expired
          case ByRefusal => true
          case ByRepeat => s.past.rebuffed && s.accepted != []
          case ByEvent => s.past.reported && s.accepted != [])
  }

  predicate SafeRow(c: Config, s: State) { s.row.Some? ==> Safe(c, s.row.value.provider) }

  ghost predicate Tracked(c: Config, s: State) {
    CallersOk(s) && (SafeRow(c, s) && OneByOne(s) ==> Orderly(c, s))
  }

  /** Neither the network nor the provider has moved, and nobody has come to wait for an answer. */
  predicate Quiet(s: State, s': State) {
    && s'.network == s.network && s'.answers == s.answers && s'.accepted == s.accepted && s.now <= s'.now
    && SameRow(s, s')
    && (forall w :: w in s.workers ==> w in s'.workers && (Called(s.workers[w].phase) ==> Called(s'.workers[w].phase)))
    && (forall w :: w in s'.workers && s'.workers[w].phase.Waiting? ==> w in s.workers && s.workers[w].phase.Waiting?)
    && (OneByOne(s') ==> OneByOne(s))
  }

  lemma QuietKeepsTrack(c: Config, s: State, s': State)
    requires Tracked(c, s) && Quiet(s, s')
    requires WasRefused(s') ==> WasRefused(s)
    ensures Tracked(c, s')
  {
    if SafeRow(c, s') && OneByOne(s') { QuietKeepsOrder(c, s, s'); }
  }

  lemma QuietKeepsOrder(c: Config, s: State, s': State)
    requires Orderly(c, s) && Quiet(s, s') && (WasRefused(s') ==> WasRefused(s))
    ensures Orderly(c, s')
  {
    forall w | Unsettled(c, s', w) ensures Unsettled(c, s, w) {}
    forall w | RefusalWaits(s', w) ensures RefusalWaits(s, w) {}
  }

  /** One worker moves to a phase other than Waiting. */
  lemma MoveKeepsTrack(c: Config, s: State, s': State, w: nat)
    requires Tracked(c, s)
    requires s'.network == s.network && s'.answers == s.answers && s'.accepted == s.accepted && s.now == s'.now && SameRow(s, s')
    requires w in s'.workers && s'.workers == s.workers[w := s'.workers[w]] && !s'.workers[w].phase.Waiting?
    requires w in s.workers && Called(s.workers[w].phase) ==> Called(s'.workers[w].phase)
    requires OneByOne(s') ==> OneByOne(s)
    requires WasRefused(s') ==> WasRefused(s)
    ensures Tracked(c, s')
  {
    QuietKeepsTrack(c, s, s');
  }

  /** Only one's own call is out once it is made. */
  lemma CallKeepsTrack(c: Config, s: State, w: nat)
    requires Tracked(c, s) && w in s.workers && s.workers[w].phase.Ready? && w !in s.network && w !in s.answers
    ensures Tracked(c, CallStep(c, s, w))
  {
    var s' := CallStep(c, s, w);
    if SafeRow(c, s') && OneByOne(s') {
      assert !AnyUnsettled(c, s) && OneByOne(s);
      forall v | Unsettled(c, s', v) ensures v == w { assert v != w ==> Unsettled(c, s, v); }
    }
  }

  /** The provider does not know the key only where nothing had been accepted. */
  lemma RefusedMeansNone(c: Config, s: State, w: nat)
    requires Inv(c, s) && SafeRow(c, s) && Live(c, s, w) && !Remembered(c, s.accepted, s.network[w].provider, s.now)
    ensures s.accepted == []
  {
    if s.row.Some? && s.accepted != [] && Window(s.row.value.provider).Some? { AcceptedIsRemembered(c, s, w); }
  }

  lemma ArriveKeepsTrack(c: Config, s: State, w: nat, verdict: Answer)
    requires Inv(c, s) && Tracked(c, s) && Live(c, s, w)
    ensures Tracked(c, ArriveStep(c, s, w, verdict))
  {
    var s' := ArriveStep(c, s, w, verdict);
    assert s'.row == s.row && s'.past == s.past;
    if SafeRow(c, s') && OneByOne(s') { ArriveKeepsOrder(c, s, w, verdict); }
  }

  lemma ArriveKeepsOrder(c: Config, s: State, w: nat, verdict: Answer)
    requires Inv(c, s) && SafeRow(c, s) && Orderly(c, s) && Live(c, s, w)
    ensures Orderly(c, ArriveStep(c, s, w, verdict))
  {
    var s' := ArriveStep(c, s, w, verdict);
    assert Unsettled(c, s, w);
    forall v | Unsettled(c, s', v) ensures v == w { assert v != w ==> Unsettled(c, s, v); }
    if !Remembered(c, s.accepted, s.network[w].provider, s.now) { RefusedMeansNone(c, s, w); }
    forall v | RefusalWaits(s', v) ensures s'.accepted == [] { assert Unsettled(c, s', v); }
  }

  lemma ReadAnswerKeepsTrack(c: Config, s: State, w: nat)
    requires Tracked(c, s) && Unread(s, w) && s.row.Some?
    ensures Tracked(c, ReadAnswerStep(s, w))
  {
    var s' := ReadAnswerStep(s, w);
    if RefusalWaits(s, w) {
      RefusalKeepsTrack(c, s, w);
    } else {
      AnswerIsQuiet(s, w);
      MoveKeepsTrack(c, s, s', w);
    }
  }

  /** Worker w is done with its answer, and nothing else has moved. */
  predicate AnswerTaken(s: State, s': State, w: nat) {
    && s'.network == s.network && s'.answers == s.answers && s'.accepted == s.accepted && s'.now == s.now && SameRow(s, s')
    && w in s'.workers && s'.workers == s.workers[w := s'.workers[w]]
    && Called(s'.workers[w].phase) && !s'.workers[w].phase.Waiting?
    && OneByOne(s') == OneByOne(s) && (WasRefused(s') ==> WasRefused(s))
  }

  lemma AnswerIsQuiet(s: State, w: nat)
    requires Unread(s, w) && !RefusalWaits(s, w) && s.row.Some?
    ensures AnswerTaken(s, ReadAnswerStep(s, w), w)
  {
    match s.answers[w].answer
    case Accepted =>
    case AcceptedWithoutId => OutcomeIsQuiet(s, w, Sending);
    case RefusedForNow => OutcomeIsQuiet(s, w, RetryableFailed);
    case Refused => RefusalIsQuiet(s, w);
  }

  lemma OutcomeIsQuiet(s: State, w: nat, st: Status)
    requires w in s.workers && s.row.Some? && !st.Failed?
    ensures AnswerTaken(s, To(SetStatusGuarded(s, st), w, Done), w)
  {
  }

  lemma RefusalIsQuiet(s: State, w: nat)
    requires w in s.workers && w in s.answers && s.answers[w].repeated && s.row.Some?
    ensures AnswerTaken(s, RefusalStep(s, w), w)
  {
  }

  lemma RefusalKeepsTrack(c: Config, s: State, w: nat)
    requires Tracked(c, s) && RefusalWaits(s, w) && s.row.Some?
    ensures Tracked(c, RefusalStep(s, w))
  {
    var s' := RefusalStep(s, w);
    if SafeRow(c, s') && OneByOne(s') {
      assert Unsettled(c, s, w);
      forall v ensures !Unsettled(c, s', v) { assert v != w && Unsettled(c, s', v) ==> Unsettled(c, s, v); }
    }
  }

  lemma ClockKeepsTrack(c: Config, s: State, a: Action)
    requires Tracked(c, s) && (a.Tick? || a.SwitchProvider? || a.DeliveryEvent?)
    ensures Tracked(c, Step(c, s, a))
  {
    QuietKeepsTrack(c, s, Step(c, s, a));
  }

  lemma StepKeepsTrack(c: Config, s: State, a: Action)
    requires Inv(c, s) && Tracked(c, s)
    ensures Tracked(c, Step(c, s, a))
  {
    var s' := Step(c, s, a);
    if s' != s {
      match a
      case Tick(_) => ClockKeepsTrack(c, s, a);
      case SwitchProvider(_) => ClockKeepsTrack(c, s, a);
      case DeliveryEvent(_) => ClockKeepsTrack(c, s, a);
      case Call(w) => CallKeepsTrack(c, s, w);
      case Arrive(w, verdict) => ArriveKeepsTrack(c, s, w, verdict);
      case ReadAnswer(w) => ReadAnswerKeepsTrack(c, s, w);
      case _ => WorkerKeepsTrack(c, s, a);
    }
  }

  lemma WorkerKeepsTrack(c: Config, s: State, a: Action)
    requires Tracked(c, s) && Step(c, s, a) != s
    requires !a.Tick? && !a.SwitchProvider? && !a.Call? && !a.Arrive? && !a.ReadAnswer? && !a.DeliveryEvent?
    ensures Tracked(c, Step(c, s, a))
  {
    match a
    case Look(w) => LookKeepsTrack(c, s, w);
    case Insert(_) => WriteKeepsTrack(c, s, a);
    case WriteFailed(_) => WriteKeepsTrack(c, s, a);
    case WriteSending(_) => WriteKeepsTrack(c, s, a);
    case Archive(_, _) => WriteKeepsTrack(c, s, a);
    case Timeout(_) => OutcomeKeepsTrack(c, s, a);
    case Finish(_) => OutcomeKeepsTrack(c, s, a);
    case StartSend(w, _) => MoveKeepsTrack(c, s, Step(c, s, a), w);
    case StartRetry(w) => MoveKeepsTrack(c, s, Step(c, s, a), w);
    case Die(w) => MoveKeepsTrack(c, s, Step(c, s, a), w);
  }

  lemma LookKeepsTrack(c: Config, s: State, w: nat)
    requires Tracked(c, s) && Step(c, s, Look(w)) != s
    ensures Tracked(c, Step(c, s, Look(w)))
  {
    LookLeavesRow(s, w);
    var s' := Step(c, s, Look(w));
    assert s' == To(s, w, s'.workers[w].phase);
    LookedKeepsTrack(c, s, w, s'.workers[w].phase);
  }

  lemma LookedKeepsTrack(c: Config, s: State, w: nat, ph: Phase)
    requires Tracked(c, s) && w in s.workers && !Called(s.workers[w].phase) && !ph.Waiting?
    ensures Tracked(c, To(s, w, ph))
  {
    MoveKeepsTrack(c, s, To(s, w, ph), w);
  }

  lemma WriteKeepsTrack(c: Config, s: State, a: Action)
    requires Tracked(c, s) && Step(c, s, a) != s
    requires a.Insert? || a.WriteFailed? || a.WriteSending? || a.Archive?
    ensures Tracked(c, Step(c, s, a))
  {
    if s.row.Some? { WriteLeavesRow(c, s, a); }
    MoveKeepsTrack(c, s, Step(c, s, a), a.w);
  }

  lemma OutcomeKeepsTrack(c: Config, s: State, a: Action)
    requires Tracked(c, s) && Step(c, s, a) != s
    requires a.Timeout? || a.Finish?
    ensures Tracked(c, Step(c, s, a))
  {
    OutcomeLeavesRow(c, s, a);
    MoveKeepsTrack(c, s, Step(c, s, a), a.w);
  }

  lemma StepKeepsCauses(c: Config, s: State, a: Action)
    requires CausesOk(s)
    ensures CausesOk(Step(c, s, a))
  {
    match a
    case Arrive(w, verdict) => if w in s.network { ArriveKeepsCauses(c, s, w, verdict); }
    case ReadAnswer(w) => if Unread(s, w) && s.row.Some? { ReadAnswerKeepsCauses(s, w); }
    case Look(w) => if w in s.workers { LookKeepsCauses(s, w); }
    case Insert(_) => WriteKeepsCauses(c, s, a);
    case WriteFailed(_) => WriteKeepsCauses(c, s, a);
    case WriteSending(_) => WriteKeepsCauses(c, s, a);
    case Archive(_, _) => WriteKeepsCauses(c, s, a);
    case _ => OtherKeepsCauses(c, s, a);
  }

  lemma ArriveKeepsCauses(c: Config, s: State, w: nat, verdict: Answer)
    requires CausesOk(s) && w in s.network
    ensures CausesOk(ArriveStep(c, s, w, verdict))
  {
  }

  lemma ReadAnswerKeepsCauses(s: State, w: nat)
    requires CausesOk(s) && w in s.workers && w in s.answers && s.row.Some?
    ensures CausesOk(ReadAnswerStep(s, w))
  {
    if s.answers[w].answer.Refused? { RefusalKeepsCauses(s, w); }
  }

  lemma RefusalKeepsCauses(s: State, w: nat)
    requires CausesOk(s) && w in s.workers && w in s.answers && s.row.Some?
    ensures CausesOk(RefusalStep(s, w))
  {
  }

  lemma LookKeepsCauses(s: State, w: nat)
    requires CausesOk(s) && w in s.workers
    ensures CausesOk(LookRetry(s, w)) && forall hash :: CausesOk(LookSend(s, w, hash))
  {
  }

  lemma WriteKeepsCauses(c: Config, s: State, a: Action)
    requires CausesOk(s) && (a.Insert? || a.WriteFailed? || a.WriteSending? || a.Archive?)
    ensures CausesOk(Step(c, s, a))
  {
  }

  lemma OtherKeepsCauses(c: Config, s: State, a: Action)
    requires CausesOk(s)
    requires a.Tick? || a.SwitchProvider? || a.StartSend? || a.StartRetry? || a.Call? || a.Timeout? || a.Finish? || a.Die?
             || a.DeliveryEvent?
    ensures CausesOk(Step(c, s, a))
  {
  }

  lemma {:induction false} RunKeepsTrack(c: Config, s: State, acts: seq<Action>)
    requires Inv(c, s) && Tracked(c, s) && CausesOk(s) && AllPinned(c, s, acts)
    ensures Tracked(c, Run(c, s, acts)) && CausesOk(Run(c, s, acts))
    decreases |acts|
  {
    if acts != [] {
      StepKeepsTrack(c, s, acts[0]);
      StepKeepsCauses(c, s, acts[0]);
      StepKeepsInv(c, s, acts[0]);
      RunKeepsTrack(c, Step(c, s, acts[0]), acts[1..]);
    }
  }

  /** In every run in which no send resumes a row through another provider, delivery events and refused repetitions
      included.  Marked after a repeated call or by an event, the message was accepted; marked otherwise than by an
      expired window, it was accepted if and only if that is so, where the window is safe and calls were made one by one. */
  lemma WhatFailedMeans(c: Config, p: ProviderId, acts: seq<Action>)
    requires AllPinned(c, Init(p), acts)
    ensures var s := Run(c, Init(p), acts);
            IsFailed(s) ==>
              var cause := s.row.value.status.cause;
              && (cause.ByRepeat? || cause.ByEvent? ==> s.accepted != [])
              && (SafeRow(c, s) && OneByOne(s) && !cause.ByExpiry? ==> (s.accepted == [] <==> cause.ByRefusal?))
  {
    RunKeepsTrack(c, Init(p), acts);
  }

  /** So if, besides, no request wrote 'failed' for an expired window, no refusal of a repeated call was read, and no
      delivery event came, then a row marked 'failed' was certainly not accepted. */
  lemma FailedIsRefused(c: Config, p: ProviderId, acts: seq<Action>)
    requires AllPinned(c, Init(p), acts)
    ensures var s := Run(c, Init(p), acts); SafeRow(c, s) && Careful(s) && IsFailed(s) ==> s.accepted == []
  {
    RunKeepsTrack(c, Init(p), acts);
  }

  // ---------------------------------------------------------------- a provider without a window

  predicate NoWindow(s: State) { s.row.Some? && Window(s.row.value.provider).None? }

  predicate NobodyHolds(s: State) { forall w :: w in s.workers ==> !HasGrant(s.workers[w].phase) }

  /** The one call there can be has been answered or not.  If neither an expired window nor a delivery event said so last,
      'failed' is its refusal; if they did, the row says 'failed' unless the message was never sent. */
  predicate OneCall(s: State) {
    && (forall w :: w in s.workers ==> !s.workers[w].phase.Resuming?)
    && (forall w :: w in s.answers ==> s.past.creator == Some(w) && s.past.calls != 0 && (s.answers[w].answer.Refused? ==> s.accepted == []))
    && (IsFailed(s) && !s.past.saidFailed ==> s.accepted == [] && s.network == map[] && s.past.calls != 0)
    && (s.past.saidFailed ==> IsFailed(s) || (s.past.calls == 0 && NobodyHolds(s)))
  }

  ghost predicate Counted(s: State) {
    && (s.row.None? ==> !s.past.saidFailed)
    && (NoWindow(s) ==> OneCall(s))
  }

  /** One worker moves, and no new grant is given. */
  lemma MoveKeepsCount(c: Config, s: State, s': State, w: nat)
    requires Inv(c, s) && Counted(s) && NoWindow(s) && NoWindow(s')
    requires s'.network == s.network && s'.answers == s.answers && s'.accepted == s.accepted
    requires w in s'.workers && s'.workers == s.workers[w := s'.workers[w]] && !s'.workers[w].phase.Resuming?
    requires HasGrant(s'.workers[w].phase) ==> w in s.workers && HasGrant(s.workers[w].phase)
    requires s'.past.calls == s.past.calls && s'.past.creator == s.past.creator && (s.past.saidFailed ==> s'.past.saidFailed)
    requires IsFailed(s') && !s'.past.saidFailed ==> IsFailed(s)
    requires s'.past.saidFailed ==> IsFailed(s') || (s'.past.calls == 0 && NobodyHolds(s'))
    ensures Counted(s')
  {
  }

  lemma CallKeepsCount(c: Config, s: State, w: nat)
    requires Inv(c, s) && Counted(s) && NoWindow(s)
    requires w in s.workers && s.workers[w].phase.Ready? && w !in s.network && w !in s.answers
    ensures Counted(CallStep(c, s, w))
  {
    var s' := CallStep(c, s, w);
    assert s.past.creator == Some(w) && s.past.calls == 0;
  }

  lemma ArriveKeepsCount(c: Config, s: State, w: nat, verdict: Answer)
    requires Inv(c, s) && CallersOk(s) && Counted(s) && NoWindow(s) && w in s.network
    ensures Counted(ArriveStep(c, s, w, verdict))
  {
    var s' := ArriveStep(c, s, w, verdict);
    assert GoodGrant(s, s.network[w]) && s.past.creator == Some(w) && s.accepted == [] && s.past.calls != 0;
  }

  lemma ReadAnswerKeepsCount(c: Config, s: State, w: nat)
    requires Inv(c, s) && CallersOk(s) && Counted(s) && NoWindow(s) && Unread(s, w)
    ensures Counted(ReadAnswerStep(s, w))
  {
    var s' := ReadAnswerStep(s, w);
    if s.answers[w].answer.Refused? {
      assert s.network.Keys == {};
    } else {
      MoveKeepsCount(c, s, s', w);
    }
  }

  lemma LookKeepsCount(c: Config, s: State, w: nat)
    requires Inv(c, s) && Counted(s) && NoWindow(s) && Step(c, s, Look(w)) != s
    ensures Counted(Step(c, s, Look(w)))
  {
    ExpireKeepsCount(c, s, w, Done);
    ExpireKeepsCount(c, s, w, Expiring);
  }

  lemma ExpireKeepsCount(c: Config, s: State, w: nat, ph: Phase)
    requires Inv(c, s) && Counted(s) && NoWindow(s) && w in s.workers && (ph.Done? || ph.Expiring?)
    ensures Counted(To(s, w, ph))
  {
    MoveKeepsCount(c, s, To(s, w, ph), w);
  }

  lemma StartKeepsCount(c: Config, s: State, w: nat, ph: Phase)
    requires Inv(c, s) && Counted(s) && NoWindow(s) && w !in s.workers && (ph.SendStarted? || ph.RetryStarted?)
    ensures Counted(s.(workers := s.workers[w := Worker(s.active, ph)]))
  {
    MoveKeepsCount(c, s, s.(workers := s.workers[w := Worker(s.active, ph)]), w);
  }

  lemma WriteKeepsCount(c: Config, s: State, a: Action)
    requires Inv(c, s) && Counted(s) && NoWindow(s) && Step(c, s, a) != s
    requires a.Insert? || a.WriteFailed? || a.WriteSending? || a.Archive?
    ensures Counted(Step(c, s, a))
  {
    WriteLeavesRow(c, s, a);
    if a.Archive? && !a.ok {
      forall v | v in s.workers && v != a.w ensures !HasGrant(s.workers[v].phase) {
        assert s.past.creator == Some(a.w);
      }
    }
    MoveKeepsCount(c, s, Step(c, s, a), a.w);
  }

  lemma OutcomeKeepsCount(c: Config, s: State, a: Action)
    requires Inv(c, s) && Counted(s) && NoWindow(s) && Step(c, s, a) != s
    requires a.Timeout? || a.Finish?
    ensures Counted(Step(c, s, a))
  {
    OutcomeLeavesRow(c, s, a);
    MoveKeepsCount(c, s, Step(c, s, a), a.w);
  }

  lemma ClockKeepsCount(c: Config, s: State, a: Action)
    requires Counted(s) && NoWindow(s) && (a.Tick? || a.SwitchProvider?)
    ensures Counted(Step(c, s, a))
  {
  }

  lemma EventKeepsCount(c: Config, s: State, o: Outcome)
    requires Inv(c, s) && Counted(s) && NoWindow(s) && s.accepted != []
    ensures Counted(EventStep(s, o))
  {
  }

  lemma WithRowKeepsCount(c: Config, s: State, a: Action)
    requires Inv(c, s) && CallersOk(s) && Counted(s) && NoWindow(s)
    ensures Counted(Step(c, s, a))
  {
    if Step(c, s, a) != s {
      match a
      case Tick(_) => ClockKeepsCount(c, s, a);
      case SwitchProvider(_) => ClockKeepsCount(c, s, a);
      case Call(w) => CallKeepsCount(c, s, w);
      case Arrive(w, verdict) => ArriveKeepsCount(c, s, w, verdict);
      case ReadAnswer(w) => ReadAnswerKeepsCount(c, s, w);
      case Look(w) => LookKeepsCount(c, s, w);
      case DeliveryEvent(o) => EventKeepsCount(c, s, o);
      case _ => WritingKeepsCount(c, s, a);
    }
  }

  lemma WritingKeepsCount(c: Config, s: State, a: Action)
    requires Inv(c, s) && Counted(s) && NoWindow(s) && Step(c, s, a) != s
    requires !a.Tick? && !a.SwitchProvider? && !a.Call? && !a.Arrive? && !a.ReadAnswer? && !a.Look? && !a.DeliveryEvent?
    ensures Counted(Step(c, s, a))
  {
    match a
    case Insert(_) => WriteKeepsCount(c, s, a);
    case WriteFailed(_) => WriteKeepsCount(c, s, a);
    case WriteSending(_) => WriteKeepsCount(c, s, a);
    case Archive(_, _) => WriteKeepsCount(c, s, a);
    case Timeout(_) => OutcomeKeepsCount(c, s, a);
    case Finish(_) => OutcomeKeepsCount(c, s, a);
    case _ => ComingAndGoingKeepsCount(c, s, a);
  }

  lemma ComingAndGoingKeepsCount(c: Config, s: State, a: Action)
    requires Inv(c, s) && Counted(s) && NoWindow(s) && Step(c, s, a) != s && (a.StartSend? || a.StartRetry? || a.Die?)
    ensures Counted(Step(c, s, a))
  {
    match a
    case StartSend(w, hash) => StartKeepsCount(c, s, w, SendStarted(hash));
    case StartRetry(w) => StartKeepsCount(c, s, w, RetryStarted);
    case Die(w) => ExpireKeepsCount(c, s, w, Done);
  }

  lemma StepKeepsCount(c: Config, s: State, a: Action)
    requires Inv(c, s) && CallersOk(s) && Counted(s)
    ensures Counted(Step(c, s, a))
  {
    if NoWindow(s) {
      WithRowKeepsCount(c, s, a);
    } else if s.row.Some? {
      ProviderIsFixed(c, s, a);
    } else {
      InsertKeepsCount(c, s, a);
    }
  }

  lemma InsertKeepsCount(c: Config, s: State, a: Action)
    requires Inv(c, s) && Counted(s) && s.row.None?
    ensures Counted(Step(c, s, a))
  {
    if !a.Insert? { NoRowYet(c, s, a); }
  }

  lemma NoRowYet(c: Config, s: State, a: Action)
    requires s.row.None? && !a.Insert?
    ensures var s' := Step(c, s, a);
            s'.row.None? && s'.past.saidFailed == s.past.saidFailed
  {
  }

  /** Until a delivery event comes, the two records agree. */
  predicate Agrees(s: State) { !s.past.reported ==> s.past.saidFailed == s.past.expired }

  predicate SameRecords(s: State, s': State) {
    s'.past.expired == s.past.expired && s'.past.saidFailed == s.past.saidFailed && s'.past.reported == s.past.reported
  }

  lemma StepKeepsAgreement(c: Config, s: State, a: Action)
    requires Agrees(s)
    ensures Agrees(Step(c, s, a))
  {
    match a
    case ReadAnswer(w) => if Unread(s, w) && s.row.Some? { ReadAnswerLeavesRecords(s, w); }
    case Look(w) => if w in s.workers { LookLeavesRecords(s, w); }
    case Insert(_) => WriteLeavesRecords(c, s, a);
    case WriteSending(_) => WriteLeavesRecords(c, s, a);
    case Archive(_, _) => WriteLeavesRecords(c, s, a);
    case WriteFailed(_) =>
    case DeliveryEvent(_) =>
    case _ => OtherLeavesRecords(c, s, a);
  }

  lemma ReadAnswerLeavesRecords(s: State, w: nat)
    requires w in s.workers && w in s.answers && s.row.Some?
    ensures SameRecords(s, ReadAnswerStep(s, w))
  {
  }

  lemma LookLeavesRecords(s: State, w: nat)
    requires w in s.workers
    ensures SameRecords(s, LookRetry(s, w)) && forall hash :: SameRecords(s, LookSend(s, w, hash))
  {
  }

  lemma WriteLeavesRecords(c: Config, s: State, a: Action)
    requires a.Insert? || a.WriteSending? || a.Archive?
    ensures SameRecords(s, Step(c, s, a))
  {
  }

  lemma OtherLeavesRecords(c: Config, s: State, a: Action)
    requires a.Tick? || a.SwitchProvider? || a.StartSend? || a.StartRetry? || a.Call? || a.Arrive? || a.Timeout? || a.Finish? || a.Die?
    ensures SameRecords(s, Step(c, s, a))
  {
  }

  lemma {:induction false} RunKeepsCount(c: Config, s: State, acts: seq<Action>)
    requires Inv(c, s) && Tracked(c, s) && Counted(s) && Agrees(s) && AllPinned(c, s, acts)
    ensures Counted(Run(c, s, acts)) && Agrees(Run(c, s, acts)) && Inv(c, Run(c, s, acts))
    decreases |acts|
  {
    if acts != [] {
      StepKeepsInv(c, s, acts[0]);
      StepKeepsTrack(c, s, acts[0]);
      StepKeepsCount(c, s, acts[0]);
      StepKeepsAgreement(c, s, acts[0]);
      RunKeepsCount(c, Step(c, s, acts[0]), acts[1..]);
    }
  }

  /** Where there is no window, in every run whatever: an accepted message is marked 'failed' if and only if the last of
      the expired-window writes and the delivery events wrote 'failed'; before any delivery event, if and only if some
      request has written 'failed' because there is no window. */
  lemma AcceptedFailsIffExpired(c: Config, p: ProviderId, acts: seq<Action>)
    ensures var s := Run(c, Init(p), acts);
            NoWindow(s) && s.accepted != [] ==>
              && (IsFailed(s) <==> s.past.saidFailed)
              && (!s.past.reported ==> (IsFailed(s) <==> s.past.expired))
  {
    if NoWindow(Run(c, Init(p), acts)) {
      NoWindowIsPinned(c, Init(p), acts);
      RunKeepsCount(c, Init(p), acts);
    }
  }
}
