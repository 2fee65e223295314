/**
The outbound send and retry protocol on one idempotency key.

Every request (a send carrying the key, or a retry of the stored message) is a worker
with a program counter.  D1 statements are atomic and each is one action; between any two
actions of a worker any other worker may act, time may pass, and any worker may die.
A provider call travels over a network that may deliver it late, and its answer may be
lost.  A provider remembers an accepted key for `Ttl` milliseconds: a call that repeats it
is not accepted again, but it may get any answer.  Once a message is accepted, delivery
events may set its status at any time.
*/
module Outbound {
  import opened Options

  datatype ProviderId = Resend | Brevo | Cloudflare

  const RESEND_WINDOW: nat := 23 * 60 * 60_000
  const BREVO_WINDOW: nat := 25 * 60_000

  /** The application's safe retry window; None means "never retry an unknown outcome". */
  function Window(p: ProviderId): Option<nat> {
    match p
    case Resend => Some(RESEND_WINDOW)
    case Brevo => Some(BREVO_WINDOW)
    case Cloudflare => None
  }

  /** What the deployment is run against: how long a provider remembers a key, and a bound
      `slack` on the time between a request's clock reading and the arrival of its provider call. */
  datatype Config = Config(resendTtl: nat, brevoTtl: nat, slack: nat)

  /** None: the provider has no idempotency key at all. */
  function Ttl(c: Config, p: ProviderId): Option<nat> {
    match p
    case Resend => Some(c.resendTtl)
    case Brevo => Some(c.brevoTtl)
    case Cloudflare => None
  }

  /** Which write marked a row as failed: the one for an expired window, the refusal of a call or of a repeated call,
      or a delivery event. */
  datatype Cause = ByExpiry | ByRefusal | ByRepeat | ByEvent

  /** `Reported` is any other status that delivery events leave. */
  datatype Status = Sending | RetryableFailed | Sent | Failed(cause: Cause) | Reported

  /** The aggregate that a committed delivery event writes. */
  datatype Outcome = OnlySent | AllFailed | SomethingElse

  function StatusAfter(o: Outcome): Status {
    match o
    case OnlySent => Sent
    case AllFailed => Failed(ByEvent)
    case SomethingElse => Reported
  }

  predicate Retryable(st: Status) { st == Sending || st == RetryableFailed }

  /** The columns of mail_messages the protocol reads and writes. */
  datatype Row = Row(created: nat, hash: int, provider: ProviderId, status: Status, archived: bool)

  /** Permission to call a provider: which one, with what payload, and the clock reading that justified it. */
  datatype Grant = Grant(provider: ProviderId, hash: int, since: nat)

  datatype Phase =
    | SendStarted(hash: int)
    | RetryStarted
    | Creating(hash: int, stamp: nat)          // no row was found; the INSERT is next
    | Expiring                                 // the window had passed; the 'failed' write is next
    | Resuming(grant: Grant, archived: bool, retry: bool)   // a row was found; the 'sending' write is next
    | Archiving(grant: Grant)
    | Ready(grant: Grant)
    | Waiting                                  // the provider call is out
    | Confirmed                                // a confirmed answer was read; the final write is next
    | Done

  datatype Worker = Worker(active: ProviderId, phase: Phase)

  datatype Answer = Accepted | AcceptedWithoutId | RefusedForNow | Refused

  /** An answer, and whether the provider knew the key already. */
  datatype Reply = Reply(answer: Answer, repeated: bool)

  datatype Acceptance = Acceptance(provider: ProviderId, time: nat, hash: int)

  /** What has happened so far, as far as the statements below speak about it. */
  datatype Past = Past(
    calls: nat,
    everArchived: bool,
    creator: Option<nat>,     // the worker whose INSERT won
    switched: bool,           // OUTBOUND_PROVIDER has been changed
    expired: bool,            // some request has written 'failed' because the window had passed
    overlapped: bool,         // some call was made while another could still arrive or be read
    stale: bool,              // some call was made on a row that said 'failed'
    rebuffed: bool,           // some refusal of a repeated call was read
    reported: bool,           // some delivery event has been committed
    saidFailed: bool)         // the last expired-window write or delivery event wrote 'failed'

  datatype State = State(
    now: nat,
    active: ProviderId,
    row: Option<Row>,
    workers: map<nat, Worker>,
    network: map<nat, Grant>,
    answers: map<nat, Reply>,
    accepted: seq<Acceptance>,
    past: Past)

  datatype Action =
    | Tick(ms: nat)
    | SwitchProvider(p: ProviderId)
    | StartSend(w: nat, hash: int)
    | StartRetry(w: nat)
    | Look(w: nat)
    | Insert(w: nat)
    | WriteFailed(w: nat)
    | WriteSending(w: nat)
    | Archive(w: nat, ok: bool)
    | Call(w: nat)
    | Arrive(w: nat, verdict: Answer)
    | ReadAnswer(w: nat)
    | Timeout(w: nat)
    | Finish(w: nat)
    | Die(w: nat)
    | DeliveryEvent(outcome: Outcome)

  function Init(p: ProviderId): State {
    State(0, p, None, map[], map[], map[], [], Past(0, false, None, false, false, false, false, false, false, false))
  }

  function To(s: State, w: nat, phase: Phase): State
    requires w in s.workers
  {
    s.(workers := s.workers[w := s.workers[w].(phase := phase)])
  }

  function SetStatus(s: State, st: Status): State
    requires s.row.Some?
  {
    s.(row := Some(s.row.value.(status := st)))
  }

  /** UPDATE ... WHERE status IN ('sending','retryable_failed'). */
  function SetStatusGuarded(s: State, st: Status): State
    requires s.row.Some?
  {
    if Retryable(s.row.value.status) then SetStatus(s, st) else s
  }

  predicate InWindow(p: ProviderId, created: nat, now: nat) {
    Window(p).Some? && now - created <= Window(p).value
  }

  /** sendMessage after its SELECT, up to the first write. */
  function LookSend(s: State, w: nat, hash: int): State
    requires w in s.workers
  {
    if s.row.None? then To(s, w, Creating(hash, s.now))
    else
      var row := s.row.value;
      if row.hash != hash || !Retryable(row.status) then To(s, w, Done)
      else if !InWindow(row.provider, row.created, s.now) then To(s, w, Expiring)
      else To(s, w, Resuming(Grant(s.workers[w].active, hash, s.now), row.archived, false))
  }

  /** retryMessage after its SELECT, up to the first write.  The call goes to the pinned provider. */
  function LookRetry(s: State, w: nat): State
    requires w in s.workers
  {
    if s.row.None? then To(s, w, Done)
    else
      var row := s.row.value;
      if !Retryable(row.status) || !row.archived then To(s, w, Done)
      else if !InWindow(row.provider, row.created, s.now) then To(s, w, Expiring)
      else To(s, w, Resuming(Grant(row.provider, row.hash, s.now), true, true))
  }

  /** Whether the provider still remembers the key when a call arrives at time `now`. */
  predicate Remembered(c: Config, accepted: seq<Acceptance>, p: ProviderId, now: nat) {
    Ttl(c, p).Some? &&
    exists a :: a in accepted && a.provider == p && now - a.time < Ttl(c, p).value
  }

  /** A call reaches the provider, which may say what it likes; it accepts only what it does not know yet. */
  function ArriveStep(c: Config, s: State, w: nat, verdict: Answer): State
    requires w in s.network
  {
    var g := s.network[w];
    var s1 := s.(network := s.network - {w});
    if Remembered(c, s.accepted, g.provider, s.now) then s1.(answers := s1.answers[w := Reply(verdict, true)])
    else
      s1.(answers := s1.answers[w := Reply(verdict, false)],
          accepted := if verdict.Accepted? || verdict.AcceptedWithoutId?
                      then s.accepted + [Acceptance(g.provider, s.now, g.hash)] else s.accepted)
  }

  /** The provider's send method, after the response has been read. */
  function ReadAnswerStep(s: State, w: nat): State
    requires w in s.workers && w in s.answers && s.row.Some?
  {
    match s.answers[w].answer
    case Accepted => To(s, w, Confirmed)
    case AcceptedWithoutId => To(SetStatusGuarded(s, Sending), w, Done)
    case RefusedForNow => To(SetStatusGuarded(s, RetryableFailed), w, Done)
    case Refused => RefusalStep(s, w)
  }

  function RefusalStep(s: State, w: nat): State
    requires w in s.workers && w in s.answers && s.row.Some?
  {
    var repeated := s.answers[w].repeated;
    To(SetStatusGuarded(s, Failed(if repeated then ByRepeat else ByRefusal))
       .(past := s.past.(rebuffed := s.past.rebuffed || repeated)), w, Done)
  }

  /** applyDeliveryStatus, once its swap commits, writes the status whatever it was. */
  function EventStep(s: State, o: Outcome): State
    requires s.row.Some?
  {
    SetStatus(s, StatusAfter(o)).(past := s.past.(reported := true, saidFailed := o.AllFailed?))
  }

  /** The phase a resumed request is in once its 'sending' write is done. */
  function Resumed(ph: Phase): Phase
    requires ph.Resuming?
  {
    if ph.archived then Ready(ph.grant) else Archiving(ph.grant)
  }

  /** A call that may still arrive. */
  predicate Live(c: Config, s: State, w: nat) { w in s.network && s.now <= s.network[w].since + c.slack }

  /** An answer that its request may still read. */
  predicate Unread(s: State, w: nat) { w in s.answers && w in s.workers && s.workers[w].phase.Waiting? }

  predicate Unsettled(c: Config, s: State, w: nat) { Live(c, s, w) || Unread(s, w) }

  predicate AnyUnsettled(c: Config, s: State) {
    (exists w :: w in s.network && Unsettled(c, s, w)) || (exists w :: w in s.answers && Unsettled(c, s, w))
  }

  /** The provider call leaves, whatever the row says by now. */
  function CallStep(c: Config, s: State, w: nat): State
    requires w in s.workers && s.workers[w].phase.Ready?
  {
    var past := s.past.(calls := s.past.calls + 1,
                        overlapped := s.past.overlapped || AnyUnsettled(c, s),
                        stale := s.past.stale || (s.row.Some? && s.row.value.status.Failed?));
    To(s.(network := s.network[w := s.workers[w].phase.grant], past := past), w, Waiting)
  }

  /** One atomic action; an action that is not enabled changes nothing. */
  function Step(c: Config, s: State, a: Action): State {
    match a
    case Tick(ms) => s.(now := s.now + ms)
    case SwitchProvider(p) => s.(active := p, past := s.past.(switched := true))
    case StartSend(w, hash) =>
      if w in s.workers then s else s.(workers := s.workers[w := Worker(s.active, SendStarted(hash))])
    case StartRetry(w) =>
      if w in s.workers then s else s.(workers := s.workers[w := Worker(s.active, RetryStarted)])
    case Look(w) =>
      if w !in s.workers then s
      else if s.workers[w].phase.SendStarted? then LookSend(s, w, s.workers[w].phase.hash)
      else if s.workers[w].phase.RetryStarted? then LookRetry(s, w)
      else s
    case Insert(w) =>
      if w !in s.workers || !s.workers[w].phase.Creating? then s
      else if s.row.Some? then To(s, w, Done)
      else
        var Creating(hash, stamp) := s.workers[w].phase;
        var p := s.workers[w].active;
        To(s.(row := Some(Row(stamp, hash, p, Sending, false)), past := s.past.(creator := Some(w))), w, Archiving(Grant(p, hash, stamp)))
    case WriteFailed(w) =>
      if w !in s.workers || !s.workers[w].phase.Expiring? || s.row.None? then s
      else To(SetStatus(s, Failed(ByExpiry)).(past := s.past.(expired := true, saidFailed := true)), w, Done)
    case WriteSending(w) =>
      if w !in s.workers || !s.workers[w].phase.Resuming? || s.row.None? then s
      else
        var ph := s.workers[w].phase;
        To(if ph.retry then SetStatusGuarded(s, Sending) else SetStatus(s, Sending), w, Resumed(ph))
    case Archive(w, ok) =>
      if w !in s.workers || !s.workers[w].phase.Archiving? || s.row.None? then s
      else if ok then
        To(s.(row := Some(s.row.value.(archived := true)), past := s.past.(everArchived := true)), w, Ready(s.workers[w].phase.grant))
      else To(s.(row := Some(s.row.value.(archived := false, status := RetryableFailed))), w, Done)
    case Call(w) =>
      if w !in s.workers || !s.workers[w].phase.Ready? || w in s.network || w in s.answers then s
      else CallStep(c, s, w)
    case Arrive(w, verdict) =>
      if w !in s.network || s.now > s.network[w].since + c.slack then s
      else ArriveStep(c, s, w, verdict)
    case ReadAnswer(w) =>
      if w !in s.workers || !s.workers[w].phase.Waiting? || w !in s.answers || s.row.None? then s
      else ReadAnswerStep(s, w)
    case Timeout(w) =>
      if w !in s.workers || !s.workers[w].phase.Waiting? || s.row.None? then s
      else To(SetStatusGuarded(s, Sending), w, Done)
    case Finish(w) =>
      if w !in s.workers || !s.workers[w].phase.Confirmed? || s.row.None? then s
      else To(SetStatusGuarded(s, Sent), w, Done)
    case Die(w) =>
      if w !in s.workers then s else To(s, w, Done)
    case DeliveryEvent(outcome) =>
      if s.row.None? || s.accepted == [] then s else EventStep(s, outcome)
  }

  function Run(c: Config, s: State, acts: seq<Action>): State
    decreases |acts|
  {
    if acts == [] then s else Run(c, Step(c, s, acts[0]), acts[1..])
  }

  /** OUTBOUND_PROVIDER is not changed during the run. */
  predicate FixedProvider(acts: seq<Action>) {
    forall a :: a in acts ==> !a.SwitchProvider?
  }

  /** A send resumes a row only if the provider it will deliver through is the one the row is pinned to. */
  predicate Pinned(s: State, a: Action) {
    a.Look? && a.w in s.workers && s.workers[a.w].phase.SendStarted? && s.row.Some?
    && LookSend(s, a.w, s.workers[a.w].phase.hash).workers[a.w].phase.Resuming?
    ==> s.workers[a.w].active == s.row.value.provider
  }

  predicate AllPinned(c: Config, s: State, acts: seq<Action>)
    decreases |acts|
  {
    acts != [] ==> Pinned(s, acts[0]) && AllPinned(c, Step(c, s, acts[0]), acts[1..])
  }

  // ---------------------------------------------------------------- the invariant

  predicate HasGrant(ph: Phase) { ph.Resuming? || ph.Archiving? || ph.Ready? }

  /** A grant was justified by a clock reading inside the window, for the row's own payload and provider. */
  predicate GoodGrant(s: State, g: Grant)
    requires s.row.Some?
  {
    var row := s.row.value;
    && g.provider == row.provider
    && g.hash == row.hash
    && row.created <= g.since <= s.now
    && (Window(row.provider).Some? ==> g.since <= row.created + Window(row.provider).value)
  }

  predicate BeforeRow(s: State) {
    && s.accepted == [] && s.network == map[] && s.answers == map[] && s.past.calls == 0 && s.past.creator.None? && !s.past.everArchived
    && forall w :: w in s.workers ==>
         var ph := s.workers[w].phase;
         && (ph.SendStarted? || ph.RetryStarted? || ph.Done? || (ph.Creating? && ph.stamp <= s.now))
         && (!s.past.switched ==> s.workers[w].active == s.active)
  }

  predicate WorkerOk(s: State, wk: Worker)
    requires s.row.Some?
  {
    && (!s.past.switched ==> wk.active == s.active)
    && (wk.phase.Creating? ==> wk.phase.stamp <= s.now)
    && (HasGrant(wk.phase) ==> GoodGrant(s, wk.phase.grant))
    && (wk.phase.Resuming? && wk.phase.archived ==> s.past.everArchived)
    && (wk.phase.Ready? ==> s.past.everArchived)
    && (wk.phase.Confirmed? ==> s.accepted != [])
  }

  /** Without a window only the worker whose INSERT won ever holds a grant, and it calls once. */
  predicate OnlyCreatorCalls(s: State) {
    && (forall w :: w in s.workers && HasGrant(s.workers[w].phase) ==>
          s.past.creator == Some(w) && s.past.calls == 0)
    && (forall w :: w in s.network ==> s.past.creator == Some(w) && s.accepted == [])
    && (s.past.calls == 0 ==> s.accepted == [] && s.network == map[])
    && s.past.calls <= 1 && |s.accepted| <= 1
  }

  predicate AcceptanceOk(c: Config, s: State, a: Acceptance)
    requires s.row.Some?
  {
    var row := s.row.value;
    && a.provider == row.provider
    && a.hash == row.hash
    && row.created <= a.time <= s.now
    && (Window(row.provider).Some? ==> a.time <= row.created + Window(row.provider).value + c.slack)
  }

  predicate AfterRow(c: Config, s: State)
    requires s.row.Some?
  {
    && (!s.past.switched ==> s.row.value.provider == s.active)
    && s.row.value.created <= s.now
    && (s.row.value.archived ==> s.past.everArchived)
    && (s.row.value.status.Sent? ==> s.accepted != [])
    && (s.accepted != [] ==> s.past.everArchived)
    && (forall w :: w in s.workers ==> WorkerOk(s, s.workers[w]))
    && (forall w :: w in s.network ==> GoodGrant(s, s.network[w]) && s.past.everArchived)
    && (forall w :: w in s.answers && s.answers[w].answer.Accepted? ==> s.accepted != [])
    && (forall a :: a in s.accepted ==> AcceptanceOk(c, s, a))
    && (Window(s.row.value.provider).None? ==> OnlyCreatorCalls(s))
    && (Safe(c, s.row.value.provider) ==> |s.accepted| <= 1)
  }

  predicate Inv(c: Config, s: State) {
    if s.row.None? then BeforeRow(s) else AfterRow(c, s)
  }

  /** The deployment condition: the window, plus how late a call may arrive, stays below the key's lifetime. */
  predicate Safe(c: Config, p: ProviderId) {
    Window(p).Some? ==> Window(p).value + c.slack < Ttl(c, p).value
  }

  /** What no action ever takes back once a row exists. */
  predicate Grows(s: State, s': State) {
    && s.row.Some? && s'.row.Some?
    && s'.row.value.created == s.row.value.created
    && s'.row.value.hash == s.row.value.hash
    && s'.row.value.provider == s.row.value.provider
    && s.now <= s'.now && s.past.creator == s'.past.creator && s.active == s'.active && s.past.switched == s'.past.switched
    && (s.past.everArchived ==> s'.past.everArchived)
    && (s.accepted != [] ==> s'.accepted != [])
  }

  /** One worker moves, and neither the network nor the provider changes. */
  lemma WorkerMoves(c: Config, s: State, s': State, w: nat, wk: Worker)
    requires Inv(c, s) && Grows(s, s')
    requires w in s.workers && s'.workers == s.workers[w := wk] && WorkerOk(s', wk)
    requires s'.network == s.network && s'.past.calls == s.past.calls && s'.answers == s.answers && s'.accepted == s.accepted
    requires s'.row.value.archived ==> s'.past.everArchived
    requires s'.row.value.status.Sent? ==> s'.accepted != []
    requires HasGrant(wk.phase) && Window(s.row.value.provider).None? ==> HasGrant(s.workers[w].phase)
    ensures Inv(c, s')
  {
  }

  /** A worker gives up, or decides to record that the window has passed. */
  lemma IdleKeepsInv(c: Config, s: State, w: nat, ph: Phase)
    requires Inv(c, s) && w in s.workers && (ph.Done? || (ph.Expiring? && s.row.Some?))
    ensures Inv(c, To(s, w, ph))
  {
    if s.row.Some? {
      assert WorkerOk(s, s.workers[w]);
      WorkerMoves(c, s, To(s, w, ph), w, s.workers[w].(phase := ph));
    }
  }

  lemma ResumeKeepsInv(c: Config, s: State, w: nat, archived: bool, retry: bool)
    requires Inv(c, s) && w in s.workers && s.row.Some? && (archived ==> s.row.value.archived)
    requires InWindow(s.row.value.provider, s.row.value.created, s.now)
    ensures Inv(c, To(s, w, Resuming(Grant(s.row.value.provider, s.row.value.hash, s.now), archived, retry)))
  {
  }

  lemma LookKeepsInv(c: Config, s: State, w: nat)
    requires Inv(c, s) && Pinned(s, Look(w))
    ensures Inv(c, Step(c, s, Look(w)))
  {
    if w in s.workers && s.row.Some? {
      assert WorkerOk(s, s.workers[w]);
      IdleKeepsInv(c, s, w, Done);
      IdleKeepsInv(c, s, w, Expiring);
      if InWindow(s.row.value.provider, s.row.value.created, s.now) {
        ResumeKeepsInv(c, s, w, s.row.value.archived, s.workers[w].phase.RetryStarted?);
      }
    }
  }

  lemma InsertKeepsInv(c: Config, s: State, w: nat)
    requires Inv(c, s)
    ensures Inv(c, Step(c, s, Insert(w)))
  {
    var s' := Step(c, s, Insert(w));
    if s' != s && s.row.Some? { WorkerMoves(c, s, s', w, s'.workers[w]); }
  }

  /** A status write, guarded or not; 'sent' only after an acceptance. */
  lemma StatusKeepsInv(c: Config, s: State, st: Status)
    requires Inv(c, s) && s.row.Some? && (st.Sent? ==> s.accepted != [])
    ensures Inv(c, SetStatus(s, st)) && Inv(c, SetStatusGuarded(s, st))
  {
  }

  /** What is recorded of refusals and delivery events constrains nothing. */
  lemma FlagsKeepInv(c: Config, s: State, past: Past)
    requires Inv(c, s) && s.row.Some?
    requires past == s.past.(rebuffed := past.rebuffed, reported := past.reported, saidFailed := past.saidFailed)
    ensures Inv(c, s.(past := past))
  {
    var s' := s.(past := past);
    forall v | v in s'.workers ensures WorkerOk(s', s'.workers[v]) { assert WorkerOk(s, s.workers[v]); }
  }

  lemma ResumedKeepsInv(c: Config, s: State, w: nat)
    requires Inv(c, s) && w in s.workers && s.workers[w].phase.Resuming? && s.row.Some?
    ensures Inv(c, To(s, w, Resumed(s.workers[w].phase)))
  {
    var ph := Resumed(s.workers[w].phase);
    assert WorkerOk(s, s.workers[w]);
    WorkerMoves(c, s, To(s, w, ph), w, s.workers[w].(phase := ph));
  }

  lemma WriteSendingKeepsInv(c: Config, s: State, w: nat)
    requires Inv(c, s)
    ensures Inv(c, Step(c, s, WriteSending(w)))
  {
    if w in s.workers && s.workers[w].phase.Resuming? && s.row.Some? {
      StatusKeepsInv(c, s, Sending);
      ResumedKeepsInv(c, if s.workers[w].phase.retry then SetStatusGuarded(s, Sending) else SetStatus(s, Sending), w);
    }
  }

  lemma ArchiveKeepsInv(c: Config, s: State, w: nat, ok: bool)
    requires Inv(c, s)
    ensures Inv(c, Step(c, s, Archive(w, ok)))
  {
    var s' := Step(c, s, Archive(w, ok));
    if s' != s {
      assert WorkerOk(s, s.workers[w]);
      WorkerMoves(c, s, s', w, s'.workers[w]);
    }
  }

  lemma CallKeepsInv(c: Config, s: State, w: nat)
    requires Inv(c, s)
    ensures Inv(c, Step(c, s, Call(w)))
  {
    if w in s.workers && s.workers[w].phase.Ready? && w !in s.network && w !in s.answers {
      CallOutKeepsInv(c, s, w, CallStep(c, s, w).past);
    }
  }

  lemma CallOutKeepsInv(c: Config, s: State, w: nat, past: Past)
    requires Inv(c, s) && w in s.workers && s.workers[w].phase.Ready? && w !in s.network
    requires past == s.past.(calls := s.past.calls + 1, overlapped := past.overlapped, stale := past.stale)
    ensures Inv(c, To(s.(network := s.network[w := s.workers[w].phase.grant], past := past), w, Waiting))
  {
    var s' := To(s.(network := s.network[w := s.workers[w].phase.grant], past := past), w, Waiting);
    forall v | v in s'.workers ensures WorkerOk(s', s'.workers[v]) { assert WorkerOk(s, s.workers[v]); }
  }

  /** A timely call finds the key still remembered if anything was accepted before. */
  lemma AcceptedIsRemembered(c: Config, s: State, w: nat)
    requires Inv(c, s) && s.row.Some? && s.accepted != [] && Window(s.row.value.provider).Some? && Safe(c, s.row.value.provider)
    requires w in s.network && s.now <= s.network[w].since + c.slack
    ensures Remembered(c, s.accepted, s.network[w].provider, s.now)
  {
    var a := s.accepted[0];
    assert a in s.accepted && AcceptanceOk(c, s, a);
  }

  lemma DuplicateKeepsInv(c: Config, s: State, w: nat, verdict: Answer)
    requires Inv(c, s) && w in s.network && Remembered(c, s.accepted, s.network[w].provider, s.now)
    ensures Inv(c, ArriveStep(c, s, w, verdict))
  {
  }

  lemma FreshKeepsInv(c: Config, s: State, w: nat, verdict: Answer)
    requires Inv(c, s) && w in s.network && !Remembered(c, s.accepted, s.network[w].provider, s.now)
    requires s.now <= s.network[w].since + c.slack
    ensures Inv(c, ArriveStep(c, s, w, verdict))
  {
    var s' := ArriveStep(c, s, w, verdict);
    if s.accepted != [] && Window(s.row.value.provider).Some? && Safe(c, s.row.value.provider) { AcceptedIsRemembered(c, s, w); }
    assert GoodGrant(s, s.network[w]);
    forall v | v in s'.workers ensures WorkerOk(s', s'.workers[v]) { assert WorkerOk(s, s.workers[v]); }
  }

  lemma ArriveKeepsInv(c: Config, s: State, w: nat, verdict: Answer)
    requires Inv(c, s)
    ensures Inv(c, Step(c, s, Arrive(w, verdict)))
  {
    if w in s.network && s.now <= s.network[w].since + c.slack {
      if Remembered(c, s.accepted, s.network[w].provider, s.now) {
        DuplicateKeepsInv(c, s, w, verdict);
      } else {
        FreshKeepsInv(c, s, w, verdict);
      }
    }
  }

  lemma ReadAnswerKeepsInv(c: Config, s: State, w: nat)
    requires Inv(c, s) && w in s.workers && w in s.answers && s.row.Some?
    ensures Inv(c, ReadAnswerStep(s, w))
  {
    match s.answers[w].answer
    case Accepted =>
      assert WorkerOk(s, s.workers[w]) && s.accepted != [];
      WorkerMoves(c, s, To(s, w, Confirmed), w, s.workers[w].(phase := Confirmed));
    case AcceptedWithoutId => StatusKeepsInv(c, s, Sending); IdleKeepsInv(c, SetStatusGuarded(s, Sending), w, Done);
    case RefusedForNow => StatusKeepsInv(c, s, RetryableFailed); IdleKeepsInv(c, SetStatusGuarded(s, RetryableFailed), w, Done);
    case Refused => RefusalKeepsInv(c, s, w);
  }

  lemma RefusalKeepsInv(c: Config, s: State, w: nat)
    requires Inv(c, s) && w in s.workers && w in s.answers && s.row.Some?
    ensures Inv(c, RefusalStep(s, w))
  {
    var st := Failed(if s.answers[w].repeated then ByRepeat else ByRefusal);
    var s1 := SetStatusGuarded(s, st);
    StatusKeepsInv(c, s, st);
    FlagsKeepInv(c, s1, RefusalStep(s, w).past);
    IdleKeepsInv(c, s1.(past := RefusalStep(s, w).past), w, Done);
  }

  lemma EventKeepsInv(c: Config, s: State, o: Outcome)
    requires Inv(c, s) && s.row.Some? && s.accepted != []
    ensures Inv(c, EventStep(s, o))
  {
    StatusKeepsInv(c, s, StatusAfter(o));
    FlagsKeepInv(c, SetStatus(s, StatusAfter(o)), EventStep(s, o).past);
  }

  lemma FinishKeepsInv(c: Config, s: State, w: nat)
    requires Inv(c, s)
    ensures Inv(c, Step(c, s, Finish(w)))
  {
    if w in s.workers && s.workers[w].phase.Confirmed? && s.row.Some? {
      assert WorkerOk(s, s.workers[w]);
      StatusKeepsInv(c, s, Sent);
      IdleKeepsInv(c, SetStatusGuarded(s, Sent), w, Done);
    }
  }

  lemma TickKeepsInv(c: Config, s: State, ms: nat)
    requires Inv(c, s)
    ensures Inv(c, Step(c, s, Tick(ms)))
  {
  }

  lemma SwitchKeepsInv(c: Config, s: State, p: ProviderId)
    requires Inv(c, s)
    ensures Inv(c, Step(c, s, SwitchProvider(p)))
  {
    var s' := Step(c, s, SwitchProvider(p));
    if s.row.Some? {
      forall v | v in s'.workers ensures WorkerOk(s', s'.workers[v]) { assert WorkerOk(s, s.workers[v]); }
    }
  }

  lemma StartKeepsInv(c: Config, s: State, w: nat, ph: Phase)
    requires Inv(c, s) && w !in s.workers && (ph.SendStarted? || ph.RetryStarted?)
    ensures Inv(c, s.(workers := s.workers[w := Worker(s.active, ph)]))
  {
    var s' := s.(workers := s.workers[w := Worker(s.active, ph)]);
    if s.row.Some? {
      forall v | v in s'.workers ensures WorkerOk(s', s'.workers[v]) {
        if v != w { assert WorkerOk(s, s.workers[v]); }
      }
    }
  }

  lemma TimeoutKeepsInv(c: Config, s: State, w: nat)
    requires Inv(c, s)
    ensures Inv(c, Step(c, s, Timeout(w)))
  {
    if w in s.workers && s.row.Some? { StatusKeepsInv(c, s, Sending); IdleKeepsInv(c, SetStatusGuarded(s, Sending), w, Done); }
  }

  lemma WriteFailedKeepsInv(c: Config, s: State, w: nat)
    requires Inv(c, s)
    ensures Inv(c, Step(c, s, WriteFailed(w)))
  {
    var s' := Step(c, s, WriteFailed(w));
    if s' != s { WorkerMoves(c, s, s', w, s'.workers[w]); }
  }

  lemma StepKeepsInv(c: Config, s: State, a: Action)
    requires Inv(c, s) && Pinned(s, a)
    ensures Inv(c, Step(c, s, a))
  {
    match a
    case Tick(ms) => TickKeepsInv(c, s, ms);
    case SwitchProvider(p) => SwitchKeepsInv(c, s, p);
    case StartSend(w, hash) => if w !in s.workers { StartKeepsInv(c, s, w, SendStarted(hash)); }
    case StartRetry(w) => if w !in s.workers { StartKeepsInv(c, s, w, RetryStarted); }
    case Look(w) => LookKeepsInv(c, s, w);
    case Insert(w) => InsertKeepsInv(c, s, w);
    case WriteSending(w) => WriteSendingKeepsInv(c, s, w);
    case Archive(w, ok) => ArchiveKeepsInv(c, s, w, ok);
    case Call(w) => CallKeepsInv(c, s, w);
    case Arrive(w, verdict) => ArriveKeepsInv(c, s, w, verdict);
    case ReadAnswer(w) => if w in s.workers && w in s.answers && s.row.Some? { ReadAnswerKeepsInv(c, s, w); }
    case Timeout(w) => TimeoutKeepsInv(c, s, w);
    case Finish(w) => FinishKeepsInv(c, s, w);
    case Die(w) => if w in s.workers { IdleKeepsInv(c, s, w, Done); }
    case WriteFailed(w) => WriteFailedKeepsInv(c, s, w);
    case DeliveryEvent(o) => if s.row.Some? && s.accepted != [] { EventKeepsInv(c, s, o); }
  }

  lemma {:induction false} RunKeepsInv(c: Config, s: State, acts: seq<Action>)
    requires Inv(c, s) && AllPinned(c, s, acts)
    ensures Inv(c, Run(c, s, acts))
    decreases |acts|
  {
    if acts != [] {
      StepKeepsInv(c, s, acts[0]);
      RunKeepsInv(c, Step(c, s, acts[0]), acts[1..]);
    }
  }

  // ---------------------------------------------------------------- the theorems

  /** Without a window one provider call is made at all; in any case an acceptance is of the row's own payload at the
      row's provider, only after the message was archived, and inside created_at + window + slack; a row is 'sent' only
      if the provider accepted it; and where the window is safe there is at most one acceptance. */
  predicate Promised(c: Config, s: State) {
    if s.row.None? then s.accepted == [] && s.past.calls == 0
    else
      var row := s.row.value;
      && (Safe(c, row.provider) ==> |s.accepted| <= 1)
      && (Window(row.provider).None? ==> s.past.calls <= 1 && |s.accepted| <= 1)
      && (s.accepted != [] ==> s.past.everArchived)
      && (forall a :: a in s.accepted ==> AcceptanceOk(c, s, a))
      && (row.status.Sent? ==> s.accepted != [])
  }

  /** In every run in which no send resumes a row through another provider, whatever else happens and however often
      OUTBOUND_PROVIDER changes. */
  lemma AtMostOncePinned(c: Config, p: ProviderId, acts: seq<Action>)
    requires AllPinned(c, Init(p), acts)
    ensures Promised(c, Run(c, Init(p), acts))
  {
    RunKeepsInv(c, Init(p), acts);
  }

  /** A send can resume through another provider only where there is a window. */
  lemma UnpinnedHasWindow(c: Config, s: State, a: Action)
    requires !Pinned(s, a)
    ensures s.row.Some? && Window(s.row.value.provider).Some?
  {
  }

  /** The row, once there, keeps its provider. */
  predicate SameRow(s: State, s': State) {
    s.row.Some? ==> s'.row.Some? && s'.row.value.provider == s.row.value.provider
  }

  lemma ProviderIsFixed(c: Config, s: State, a: Action)
    requires s.row.Some?
    ensures SameRow(s, Step(c, s, a))
  {
    match a
    case Look(w) => if w in s.workers { LookLeavesRow(s, w); }
    case ReadAnswer(w) => if w in s.workers && w in s.answers { ReadAnswerLeavesRow(s, w); }
    case Timeout(_) => OutcomeLeavesRow(c, s, a);
    case Finish(_) => OutcomeLeavesRow(c, s, a);
    case DeliveryEvent(_) => OutcomeLeavesRow(c, s, a);
    case Insert(_) => WriteLeavesRow(c, s, a);
    case WriteFailed(_) => WriteLeavesRow(c, s, a);
    case WriteSending(_) => WriteLeavesRow(c, s, a);
    case Archive(_, _) => WriteLeavesRow(c, s, a);
    case _ => OtherLeavesRow(c, s, a);
  }

  lemma OutcomeLeavesRow(c: Config, s: State, a: Action)
    requires s.row.Some? && (a.Timeout? || a.Finish? || a.DeliveryEvent?)
    ensures SameRow(s, Step(c, s, a))
  {
  }

  lemma WriteLeavesRow(c: Config, s: State, a: Action)
    requires s.row.Some? && (a.Insert? || a.WriteFailed? || a.WriteSending? || a.Archive?)
    ensures SameRow(s, Step(c, s, a))
  {
  }

  lemma OtherLeavesRow(c: Config, s: State, a: Action)
    requires a.Tick? || a.SwitchProvider? || a.StartSend? || a.StartRetry? || a.Call? || a.Arrive? || a.Die?
    ensures Step(c, s, a).row == s.row
  {
  }

  lemma LookLeavesRow(s: State, w: nat)
    requires w in s.workers
    ensures LookRetry(s, w).row == s.row && forall hash :: LookSend(s, w, hash).row == s.row
  {
  }

  lemma ReadAnswerLeavesRow(s: State, w: nat)
    requires w in s.workers && w in s.answers && s.row.Some?
    ensures SameRow(s, ReadAnswerStep(s, w))
  {
  }

  lemma {:induction false} NoWindowIsPinned(c: Config, s: State, acts: seq<Action>)
    requires var s' := Run(c, s, acts); s'.row.Some? ==> Window(s'.row.value.provider).None?
    ensures AllPinned(c, s, acts)
    ensures s.row.Some? ==> var s' := Run(c, s, acts); s'.row.Some? && s'.row.value.provider == s.row.value.provider
    decreases |acts|
  {
    if acts != [] {
      NoWindowIsPinned(c, Step(c, s, acts[0]), acts[1..]);
      if s.row.Some? { ProviderIsFixed(c, s, acts[0]); }
      if !Pinned(s, acts[0]) { UnpinnedHasWindow(c, s, acts[0]); }
    }
  }

  /** A row pinned to a provider without a window needs no such care: in every run, switches included, it has one call
      and one acceptance at most. */
  lemma NoWindowAtMostOnce(c: Config, p: ProviderId, acts: seq<Action>)
    ensures var s := Run(c, Init(p), acts);
            s.row.Some? && Window(s.row.value.provider).None? ==> s.past.calls <= 1 && |s.accepted| <= 1
  {
    var s := Run(c, Init(p), acts);
    if s.row.Some? && Window(s.row.value.provider).None? {
      NoWindowIsPinned(c, Init(p), acts);
      AtMostOncePinned(c, p, acts);
    }
  }

  predicate SameSwitch(s: State, s': State) { s'.past.switched == s.past.switched && s'.active == s.active }

  lemma SwitchesAreCounted(c: Config, s: State, a: Action)
    requires !a.SwitchProvider?
    ensures SameSwitch(s, Step(c, s, a))
  {
    match a
    case Look(w) => if w in s.workers { LookLeavesSwitch(s, w); }
    case ReadAnswer(w) => if w in s.workers && w in s.answers && s.row.Some? { ReadAnswerLeavesSwitch(s, w); }
    case Insert(_) => WriteLeavesSwitch(c, s, a);
    case WriteFailed(_) => WriteLeavesSwitch(c, s, a);
    case WriteSending(_) => WriteLeavesSwitch(c, s, a);
    case Archive(_, _) => WriteLeavesSwitch(c, s, a);
    case _ => OtherLeavesSwitch(c, s, a);
  }

  lemma LookLeavesSwitch(s: State, w: nat)
    requires w in s.workers
    ensures SameSwitch(s, LookRetry(s, w)) && forall hash :: SameSwitch(s, LookSend(s, w, hash))
  {
  }

  lemma ReadAnswerLeavesSwitch(s: State, w: nat)
    requires w in s.workers && w in s.answers && s.row.Some?
    ensures SameSwitch(s, ReadAnswerStep(s, w))
  {
  }

  lemma WriteLeavesSwitch(c: Config, s: State, a: Action)
    requires a.Insert? || a.WriteFailed? || a.WriteSending? || a.Archive?
    ensures SameSwitch(s, Step(c, s, a))
  {
  }

  lemma OtherLeavesSwitch(c: Config, s: State, a: Action)
    requires a.Tick? || a.StartSend? || a.StartRetry? || a.Call? || a.Arrive? || a.Timeout? || a.Finish? || a.Die? || a.DeliveryEvent?
    ensures SameSwitch(s, Step(c, s, a))
  {
  }

  lemma {:induction false} FixedIsPinned(c: Config, s: State, acts: seq<Action>)
    requires Inv(c, s) && !s.past.switched && FixedProvider(acts)
    ensures AllPinned(c, s, acts) && Run(c, s, acts).active == s.active && !Run(c, s, acts).past.switched
    decreases |acts|
  {
    if acts != [] {
      UnswitchedIsPinned(c, s, acts[0]);
      StepKeepsInv(c, s, acts[0]);
      SwitchesAreCounted(c, s, acts[0]);
      FixedIsPinned(c, Step(c, s, acts[0]), acts[1..]);
    }
  }

  lemma UnswitchedIsPinned(c: Config, s: State, a: Action)
    requires Inv(c, s) && !s.past.switched
    ensures Pinned(s, a)
  {
  }

  /** In every run with a fixed provider and a safe window. */
  lemma AtMostOnce(c: Config, p: ProviderId, acts: seq<Action>)
    requires Safe(c, p) && FixedProvider(acts)
    ensures var s := Run(c, Init(p), acts);
            && |s.accepted| <= 1
            && (Window(p).None? ==> s.past.calls <= 1)
            && (s.accepted != [] ==>
                  && s.past.everArchived
                  && s.row.Some? && s.accepted[0].provider == s.row.value.provider == p
                  && s.accepted[0].hash == s.row.value.hash
                  && s.row.value.created <= s.accepted[0].time
                  && (Window(p).Some? ==> s.accepted[0].time <= s.row.value.created + Window(p).value + c.slack))
            && (s.row.Some? && s.row.value.status.Sent? ==> s.accepted != [])
  {
    FixedIsPinned(c, Init(p), acts);
    RunKeepsInv(c, Init(p), acts);
    var s := Run(c, Init(p), acts);
    if s.accepted != [] { assert s.accepted[0] in s.accepted && AcceptanceOk(c, s, s.accepted[0]); }
  }

  // ---------------------------------------------------------------- runs, piece by piece

  lemma RunOne(c: Config, s: State, a: Action)
    ensures Run(c, s, [a]) == Step(c, s, a)
  {
    assert Run(c, Step(c, s, a), []) == Step(c, s, a);
  }

  lemma RunTwo(c: Config, s: State, a: Action, b: Action)
    ensures Run(c, s, [a, b]) == Step(c, Step(c, s, a), b)
  {
    assert [a, b][1..] == [b];
    assert Run(c, Step(c, s, a), [b]) == Step(c, Step(c, s, a), b);
  }

  lemma RunThree(c: Config, s: State, a: Action, b: Action, d: Action)
    ensures Run(c, s, [a, b, d]) == Step(c, Step(c, Step(c, s, a), b), d)
  {
    assert [a, b, d][1..] == [b, d];
    RunTwo(c, Step(c, s, a), b, d);
  }

  lemma RunFour(c: Config, s: State, a: Action, b: Action, d: Action, e: Action)
    ensures Run(c, s, [a, b, d, e]) == Step(c, Step(c, Step(c, Step(c, s, a), b), d), e)
  {
    assert [a, b, d, e][1..] == [b, d, e];
    RunThree(c, Step(c, s, a), b, d, e);
  }

  lemma {:induction false} RunAppend(c: Config, s: State, a: seq<Action>, b: seq<Action>)
    ensures Run(c, s, a + b) == Run(c, Run(c, s, a), b)
    decreases |a|
  {
    if a == [] {
      assert a + b == b;
    } else {
      assert (a + b)[1..] == a[1..] + b;
      RunAppend(c, Step(c, s, a[0]), a[1..], b);
    }
  }
}
