/** What becomes of a request that is not disturbed, from every state that the protocol can reach. */
module OutboundOutcomes {
  import opened Options
  import opened Outbound

  predicate IsDone(s: State, w: nat) { w in s.workers && s.workers[w].phase.Done? }

  /** What the provider's answer makes of a status that still waits for one. */
  function Verdict(reply: Reply): Status {
    match reply
    case Reply(Accepted, _) => Sent
    case Reply(AcceptedWithoutId, _) => Sending
    case Reply(RefusedForNow, _) => RetryableFailed
    case Reply(Refused, repeated) => Failed(if repeated then ByRepeat else ByRefusal)
  }

  function Settled(row: Row, st: Status): Row { if Retryable(row.status) then row.(status := st) else row }

  /** The request is over and has settled the row, unless that had been done before; nothing else has happened. */
  predicate EndsWith(s: State, s': State, w: nat, st: Status) {
    IsDone(s', w) && s.row.Some? && s'.row == Some(Settled(s.row.value, st)) && s'.accepted == s.accepted
  }

  // ---------------------------------------------------------------- the end of a request

  lemma ConfirmedIsSent(c: Config, s: State, w: nat)
    requires w in s.workers && s.workers[w].phase.Confirmed? && s.row.Some?
    ensures EndsWith(s, Run(c, s, [Finish(w)]), w, Sent)
  {
    RunOne(c, s, Finish(w));
  }

  lemma UnansweredIsSending(c: Config, s: State, w: nat)
    requires w in s.workers && s.workers[w].phase.Waiting? && s.row.Some?
    ensures EndsWith(s, Run(c, s, [Timeout(w)]), w, Sending)
  {
    RunOne(c, s, Timeout(w));
  }

  /** Whatever has happened before, the answer that a request reads is recorded, unless the row has been settled. */
  lemma AnswerIsRecorded(c: Config, s: State, w: nat)
    requires Unread(s, w) && s.row.Some?
    ensures EndsWith(s, Run(c, s, [ReadAnswer(w), Finish(w)]), w, Verdict(s.answers[w]))
  {
    RunTwo(c, s, ReadAnswer(w), Finish(w));
    if s.answers[w].answer.Accepted? {
      ConfirmedIsSent(c, To(s, w, Confirmed), w);
      RunOne(c, To(s, w, Confirmed), Finish(w));
    } else {
      OtherAnswerIsRecorded(c, s, w);
    }
  }

  lemma OtherAnswerIsRecorded(c: Config, s: State, w: nat)
    requires Unread(s, w) && s.row.Some? && !s.answers[w].answer.Accepted?
    ensures EndsWith(s, ReadAnswerStep(s, w), w, Verdict(s.answers[w]))
  {
  }

  // ---------------------------------------------------------------- the call

  function Delivering(w: nat, verdict: Answer): seq<Action> { [Call(w), Arrive(w, verdict)] + [ReadAnswer(w), Finish(w)] }

  predicate AboutToCall(c: Config, s: State, w: nat) {
    && w in s.workers && s.workers[w].phase.Ready? && w !in s.network && w !in s.answers && s.row.Some?
    && s.now <= s.workers[w].phase.grant.since + c.slack
  }

  /** The provider's part: a key it remembers is not accepted again. */
  function Told(c: Config, s: State, g: Grant, verdict: Answer): Reply { Reply(verdict, Remembered(c, s.accepted, g.provider, s.now)) }

  function AcceptedAfter(s: State, g: Grant, reply: Reply): seq<Acceptance> {
    if reply.repeated || reply.answer.Refused? || reply.answer.RefusedForNow? then s.accepted
    else s.accepted + [Acceptance(g.provider, s.now, g.hash)]
  }

  lemma CallArrives(c: Config, s: State, w: nat, verdict: Answer)
    requires AboutToCall(c, s, w)
    ensures var s', g := Run(c, s, [Call(w), Arrive(w, verdict)]), s.workers[w].phase.grant;
            && Unread(s', w) && s'.answers[w] == Told(c, s, g, verdict) && s'.row == s.row
            && s'.accepted == AcceptedAfter(s, g, Told(c, s, g, verdict))
  {
    RunTwo(c, s, Call(w), Arrive(w, verdict));
    var s1 := CallStep(c, s, w);
    assert Step(c, s, Call(w)) == s1;
  }

  /** A request that calls the provider in time and hears its answer settles the row accordingly. */
  lemma CallSettles(c: Config, s: State, w: nat, verdict: Answer)
    requires AboutToCall(c, s, w)
    ensures var s', g := Run(c, s, Delivering(w, verdict)), s.workers[w].phase.grant;
            && IsDone(s', w) && s'.row == Some(Settled(s.row.value, Verdict(Told(c, s, g, verdict))))
            && s'.accepted == AcceptedAfter(s, g, Told(c, s, g, verdict))
  {
    CallArrives(c, s, w, verdict);
    RunAppend(c, s, [Call(w), Arrive(w, verdict)], [ReadAnswer(w), Finish(w)]);
    AnswerIsRecorded(c, Run(c, s, [Call(w), Arrive(w, verdict)]), w);
  }

  // ---------------------------------------------------------------- a send of a new key

  /** Calls and answers belong to requests, and before there is a row there are none, nor an acceptance. */
  predicate Known(s: State) {
    && s.network.Keys + s.answers.Keys <= s.workers.Keys
    && (s.row.None? ==> s.accepted == [] && s.network == map[] && forall w :: w in s.workers ==> !HasGrant(s.workers[w].phase))
  }

  lemma StepKeepsKnown(c: Config, s: State, a: Action)
    requires Known(s)
    ensures Known(Step(c, s, a))
  {
    match a
    case Look(w) => if w in s.workers { LookKeepsKnown(s, w); }
    case ReadAnswer(w) => if w in s.workers && w in s.answers && s.row.Some? { ReadAnswerKeepsKnown(s, w); }
    case Insert(_) => WriteKeepsKnown(c, s, a);
    case WriteFailed(_) => WriteKeepsKnown(c, s, a);
    case WriteSending(_) => WriteKeepsKnown(c, s, a);
    case Archive(_, _) => WriteKeepsKnown(c, s, a);
    case _ => OtherKeepsKnown(c, s, a);
  }

  lemma LookKeepsKnown(s: State, w: nat)
    requires Known(s) && w in s.workers
    ensures Known(LookRetry(s, w)) && forall hash :: Known(LookSend(s, w, hash))
  {
  }

  lemma ReadAnswerKeepsKnown(s: State, w: nat)
    requires Known(s) && w in s.workers && w in s.answers && s.row.Some?
    ensures Known(ReadAnswerStep(s, w))
  {
  }

  lemma WriteKeepsKnown(c: Config, s: State, a: Action)
    requires Known(s) && (a.Insert? || a.WriteFailed? || a.WriteSending? || a.Archive?)
    ensures Known(Step(c, s, a))
  {
  }

  lemma OtherKeepsKnown(c: Config, s: State, a: Action)
    requires Known(s) && !a.Look? && !a.ReadAnswer? && !a.Insert? && !a.WriteFailed? && !a.WriteSending? && !a.Archive?
    ensures Known(Step(c, s, a))
  {
  }

  lemma {:induction false} RunKeepsKnown(c: Config, s: State, acts: seq<Action>)
    requires Known(s)
    ensures Known(Run(c, s, acts))
    decreases |acts|
  {
    if acts != [] {
      StepKeepsKnown(c, s, acts[0]);
      RunKeepsKnown(c, Step(c, s, acts[0]), acts[1..]);
    }
  }

  function Opening(w: nat, hash: int): seq<Action> { [StartSend(w, hash), Look(w), Insert(w)] }

  /** The row is there, and its request is about to archive the message. */
  function Inserted(s: State, w: nat, hash: int): State {
    s.(row := Some(Row(s.now, hash, s.active, Sending, false)), past := s.past.(creator := Some(w)),
       workers := s.workers[w := Worker(s.active, Archiving(Grant(s.active, hash, s.now)))])
  }

  lemma NewKeyIsInserted(c: Config, s: State, w: nat, hash: int)
    requires s.row.None? && w !in s.workers
    ensures Run(c, s, Opening(w, hash)) == Inserted(s, w, hash)
  {
    RunThree(c, s, StartSend(w, hash), Look(w), Insert(w));
    var s1 := s.(workers := s.workers[w := Worker(s.active, SendStarted(hash))]);
    var s2 := s.(workers := s.workers[w := Worker(s.active, Creating(hash, s.now))]);
    assert s1.workers[w := Worker(s.active, Creating(hash, s.now))] == s2.workers;
    assert Step(c, s1, Look(w)) == s2;
    assert s2.workers[w := Worker(s.active, Archiving(Grant(s.active, hash, s.now)))] == Inserted(s, w, hash).workers;
  }

  /** The message is archived, and its request about to call the provider. */
  function Archived(s: State, w: nat, grant: Grant): State
    requires s.row.Some? && w in s.workers
  {
    To(s.(row := Some(s.row.value.(archived := true)), past := s.past.(everArchived := true)), w, Ready(grant))
  }

  lemma ArchivingGoesOn(c: Config, s: State, w: nat)
    requires w in s.workers && s.workers[w].phase.Archiving? && s.row.Some?
    ensures Run(c, s, [Archive(w, true)]) == Archived(s, w, s.workers[w].phase.grant)
  {
    RunOne(c, s, Archive(w, true));
  }

  lemma FailedArchivingIsRetryable(c: Config, s: State, w: nat)
    requires w in s.workers && s.workers[w].phase.Archiving? && s.row.Some?
    ensures var s' := Run(c, s, [Archive(w, false)]);
            && IsDone(s', w) && s'.row == Some(s.row.value.(status := RetryableFailed, archived := false))
            && s'.accepted == s.accepted && s'.network == s.network
  {
    RunOne(c, s, Archive(w, false));
  }

  /** The first send of a key, if nothing disturbs it: the message is stored and archived, the active provider is called
      once with its payload, and the answer is recorded. */
  lemma FirstSendSettles(c: Config, p: ProviderId, acts: seq<Action>, w: nat, hash: int, verdict: Answer)
    requires var s := Run(c, Init(p), acts); s.row.None? && w !in s.workers
    ensures var s := Run(c, Init(p), acts);
            var s' := Run(c, s, Opening(w, hash) + [Archive(w, true)] + Delivering(w, verdict));
            && IsDone(s', w) && s'.row == Some(Row(s.now, hash, s.active, Verdict(Reply(verdict, false)), true))
            && s'.accepted == if verdict.Accepted? || verdict.AcceptedWithoutId? then [Acceptance(s.active, s.now, hash)] else []
  {
    var s := Run(c, Init(p), acts);
    RunKeepsKnown(c, Init(p), acts);
    var s1 := Inserted(s, w, hash);
    NewKeyIsInserted(c, s, w, hash);
    ArchivingGoesOn(c, s1, w);
    RunAppend(c, s, Opening(w, hash), [Archive(w, true)]);
    RunAppend(c, s, Opening(w, hash) + [Archive(w, true)], Delivering(w, verdict));
    CallSettles(c, Archived(s1, w, Grant(s.active, hash, s.now)), w, verdict);
  }

  // ---------------------------------------------------------------- a request for a key that has a row

  /** Looking at the row changes nothing but where the request stands. */
  function Looked(s: State, w: nat, ph: Phase): State { s.(workers := s.workers[w := Worker(s.active, ph)]) }

  lemma SendLooks(c: Config, s: State, w: nat, hash: int)
    requires s.row.Some? && w !in s.workers
    ensures var s', row := Run(c, s, [StartSend(w, hash), Look(w)]), s.row.value;
            s' == Looked(s, w, if row.hash != hash || !Retryable(row.status) then Done
                               else if !InWindow(row.provider, row.created, s.now) then Expiring
                               else Resuming(Grant(s.active, hash, s.now), row.archived, false))
  {
    RunTwo(c, s, StartSend(w, hash), Look(w));
  }

  lemma RetryLooks(c: Config, s: State, w: nat)
    requires s.row.Some? && w !in s.workers
    ensures var s', row := Run(c, s, [StartRetry(w), Look(w)]), s.row.value;
            s' == Looked(s, w, if !Retryable(row.status) || !row.archived then Done
                               else if !InWindow(row.provider, row.created, s.now) then Expiring
                               else Resuming(Grant(row.provider, row.hash, s.now), true, true))
  {
    RunTwo(c, s, StartRetry(w), Look(w));
  }

  /** The rest of a request that resumes a row. */
  function Resumption(s: State, w: nat, verdict: Answer): seq<Action>
    requires s.row.Some?
  {
    (if s.row.value.archived then [] else [Archive(w, true)]) + Delivering(w, verdict)
  }

  /** A request that was allowed to resume a waiting row through `grant`. */
  function Resumes(s: State, w: nat, grant: Grant, retry: bool): State
    requires s.row.Some?
  {
    Looked(s, w, Resuming(grant, s.row.value.archived, retry))
  }

  /** ... has marked the row. */
  function Marked(s: State, w: nat, grant: Grant): State
    requires s.row.Some?
  {
    Looked(s, w, if s.row.value.archived then Ready(grant) else Archiving(grant)).(row := Some(s.row.value.(status := Sending)))
  }

  lemma ResumingMarks(c: Config, s: State, w: nat, grant: Grant, retry: bool)
    requires s.row.Some? && Retryable(s.row.value.status) && w !in s.workers
    ensures Run(c, Resumes(s, w, grant, retry), [WriteSending(w)]) == Marked(s, w, grant)
  {
    RunOne(c, Resumes(s, w, grant, retry), WriteSending(w));
    assert Marked(s, w, grant).workers == Resumes(s, w, grant, retry).workers[w := Marked(s, w, grant).workers[w]];
  }

  /** How such a request ends. */
  predicate ResumedEnd(c: Config, s: State, s': State, w: nat, grant: Grant, verdict: Answer)
    requires s.row.Some?
  {
    var reply := Told(c, s, grant, verdict);
    && IsDone(s', w) && s'.row == Some(s.row.value.(status := Verdict(reply), archived := true))
    && s'.accepted == AcceptedAfter(s, grant, reply)
  }

  lemma MarkedSettles(c: Config, s: State, w: nat, grant: Grant, verdict: Answer)
    requires s.row.Some? && w !in s.workers && w !in s.network && w !in s.answers && grant.since == s.now
    ensures ResumedEnd(c, s, Run(c, Marked(s, w, grant), Resumption(s, w, verdict)), w, grant, verdict)
  {
    var m := Marked(s, w, grant);
    if s.row.value.archived {
      assert Resumption(s, w, verdict) == Delivering(w, verdict);
      CallSettles(c, m, w, verdict);
    } else {
      ArchivingGoesOn(c, m, w);
      RunAppend(c, m, [Archive(w, true)], Delivering(w, verdict));
      CallSettles(c, Archived(m, w, grant), w, verdict);
    }
  }

  /** A request whose first two actions have let it resume. */
  lemma ResumedSettles(c: Config, s: State, w: nat, start: seq<Action>, grant: Grant, retry: bool, verdict: Answer)
    requires Known(s) && s.row.Some? && Retryable(s.row.value.status) && w !in s.workers && grant.since == s.now
    requires Run(c, s, start) == Resumes(s, w, grant, retry)
    ensures Run(c, s, start + [WriteSending(w)]).row == Some(s.row.value.(status := Sending))
    ensures ResumedEnd(c, s, Run(c, s, start + [WriteSending(w)] + Resumption(s, w, verdict)), w, grant, verdict)
  {
    ResumingMarks(c, s, w, grant, retry);
    RunAppend(c, s, start, [WriteSending(w)]);
    RunAppend(c, s, start + [WriteSending(w)], Resumption(s, w, verdict));
    MarkedSettles(c, s, w, grant, verdict);
  }

  /** A repeated send with the same payload, inside the window: the row is marked, the message archived if it was not yet,
      the active provider called, and the answer recorded. */
  lemma RepeatedSendSettles(c: Config, p: ProviderId, acts: seq<Action>, w: nat, verdict: Answer)
    requires var s := Run(c, Init(p), acts);
             s.row.Some? && Retryable(s.row.value.status) && InWindow(s.row.value.provider, s.row.value.created, s.now) && w !in s.workers
    ensures var s := Run(c, Init(p), acts);
            var row, start := s.row.value, [StartSend(w, s.row.value.hash), Look(w), WriteSending(w)];
            && Run(c, s, start).row == Some(row.(status := Sending))
            && ResumedEnd(c, s, Run(c, s, start + Resumption(s, w, verdict)), w, Grant(s.active, row.hash, s.now), verdict)
  {
    var s := Run(c, Init(p), acts);
    var start := [StartSend(w, s.row.value.hash), Look(w)];
    RunKeepsKnown(c, Init(p), acts);
    SendLooks(c, s, w, s.row.value.hash);
    ResumedSettles(c, s, w, start, Grant(s.active, s.row.value.hash, s.now), false, verdict);
    assert start + [WriteSending(w)] == [StartSend(w, s.row.value.hash), Look(w), WriteSending(w)];
  }

  /** A retry of an archived message: the same, through the provider the row is pinned to. */
  lemma RetrySettles(c: Config, p: ProviderId, acts: seq<Action>, w: nat, verdict: Answer)
    requires var s := Run(c, Init(p), acts);
             && s.row.Some? && Retryable(s.row.value.status) && s.row.value.archived
             && InWindow(s.row.value.provider, s.row.value.created, s.now) && w !in s.workers
    ensures var s := Run(c, Init(p), acts);
            var row, start := s.row.value, [StartRetry(w), Look(w), WriteSending(w)];
            && Run(c, s, start).row == Some(row.(status := Sending))
            && ResumedEnd(c, s, Run(c, s, start + Resumption(s, w, verdict)), w, Grant(row.provider, row.hash, s.now), verdict)
  {
    var s := Run(c, Init(p), acts);
    var start := [StartRetry(w), Look(w)];
    RunKeepsKnown(c, Init(p), acts);
    RetryLooks(c, s, w);
    ResumedSettles(c, s, w, start, Grant(s.row.value.provider, s.row.value.hash, s.now), true, verdict);
    assert start + [WriteSending(w)] == [StartRetry(w), Look(w), WriteSending(w)];
  }

  /** Outside the window a request calls nobody and marks a waiting row as failed. */
  lemma LateRequestFails(c: Config, s: State, w: nat)
    requires s.row.Some? && Retryable(s.row.value.status) && !InWindow(s.row.value.provider, s.row.value.created, s.now) && w !in s.workers
    ensures var s' := Run(c, s, [StartSend(w, s.row.value.hash), Look(w), WriteFailed(w)]);
            IsDone(s', w) && s'.row == Some(s.row.value.(status := Failed(ByExpiry))) && s'.network == s.network && s'.accepted == s.accepted
    ensures s.row.value.archived ==>
              var s' := Run(c, s, [StartRetry(w), Look(w), WriteFailed(w)]);
              IsDone(s', w) && s'.row == Some(s.row.value.(status := Failed(ByExpiry))) && s'.network == s.network && s'.accepted == s.accepted
  {
    var send, retry := [StartSend(w, s.row.value.hash), Look(w)], [StartRetry(w), Look(w)];
    SendLooks(c, s, w, s.row.value.hash);
    RetryLooks(c, s, w);
    RunAppend(c, s, send, [WriteFailed(w)]);
    RunAppend(c, s, retry, [WriteFailed(w)]);
    RunOne(c, Looked(s, w, Expiring), WriteFailed(w));
    assert send + [WriteFailed(w)] == [StartSend(w, s.row.value.hash), Look(w), WriteFailed(w)];
    assert retry + [WriteFailed(w)] == [StartRetry(w), Look(w), WriteFailed(w)];
  }

  /** A settled row, another payload, and for a retry a message that was not archived, end the request on the spot. */
  lemma SettledRowIsLeftAlone(c: Config, s: State, w: nat, hash: int)
    requires s.row.Some? && w !in s.workers
    ensures IsDone(Run(c, s, [StartSend(w, hash), Look(w)]), w) <==> !Retryable(s.row.value.status) || hash != s.row.value.hash
    ensures IsDone(Run(c, s, [StartRetry(w), Look(w)]), w) <==> !Retryable(s.row.value.status) || !s.row.value.archived
    ensures Run(c, s, [StartSend(w, hash), Look(w)]).(workers := s.workers) == s == Run(c, s, [StartRetry(w), Look(w)]).(workers := s.workers)
  {
    SendLooks(c, s, w, hash);
    RetryLooks(c, s, w);
  }
}
