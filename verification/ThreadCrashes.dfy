/**
What running reconcileProviderMessageId again makes of a run that died.  The first run has
moved the replies, so the second finds none and tidies no source thread.
*/
module ThreadCrashes {
  import opened Options
  import opened Threads

  /** The run that was not interrupted, and the one that follows a crash. */
  function Rerun(s: Store, parent: Message, id: string, now: nat, later: nat, point: CrashPoint): Store
    requires Reached(s, parent, id, point)
  {
    Reconciled(Crashed(s, parent, id, now, point), parent, id, later)
  }

  function RowOf(threads: map<string, Thread>, t: string): Option<Thread> {
    if t in threads then Some(threads[t].(updated := 0)) else None
  }

  lemma UndatedIff(a: Store, b: Store)
    requires |a.messages| == |b.messages|
    requires forall i :: 0 <= i < |a.messages| ==> a.messages[i].(updated := 0) == b.messages[i].(updated := 0)
    ensures Undated(a) == Undated(b) <==> forall t :: RowOf(a.threads, t) == RowOf(b.threads, t)
  {
    assert Undated(a).messages == Undated(b).messages;
    if forall t :: RowOf(a.threads, t) == RowOf(b.threads, t) {
      forall t ensures t in Undated(a).threads <==> t in Undated(b).threads { assert RowOf(a.threads, t) == RowOf(b.threads, t); }
      forall t | t in Undated(a).threads ensures Undated(a).threads[t] == Undated(b).threads[t] {
        assert RowOf(a.threads, t) == RowOf(b.threads, t);
      }
      assert Undated(a).threads == Undated(b).threads;
    } else {
      var t :| RowOf(a.threads, t) != RowOf(b.threads, t);
      assert RowOf(a.threads, t) == (if t in Undated(a).threads then Some(Undated(a).threads[t]) else None);
      assert RowOf(b.threads, t) == (if t in Undated(b).threads then Some(Undated(b).threads[t]) else None);
    }
  }

  // ---------------------------------------------------------------- a crash before the replies were moved

  /** The same messages but for timestamps and for what the parent may have learnt already. */
  predicate Nearly(a: seq<Message>, b: seq<Message>, parent: Message, id: string) {
    && |a| == |b|
    && forall i :: 0 <= i < |a| ==>
         b[i].(updated := 0) == a[i].(updated := 0) || b[i].(updated := 0) == Named(a[i], parent.id, id, 0).(updated := 0)
  }

  lemma {:induction false} SameSources(a: seq<Message>, b: seq<Message>, parent: Message, id: string)
    requires Nearly(a, b, parent, id)
    ensures Sources(a, parent.mail.mailbox, parent.thread, id) == Sources(b, parent.mail.mailbox, parent.thread, id)
  {
    if a != [] { SameSources(a[..|a| - 1], b[..|b| - 1], parent, id); }
  }

  lemma SameRewritten(a: seq<Message>, b: seq<Message>, parent: Message, id: string, now: nat, later: nat, t: string)
    requires Nearly(a, b, parent, id)
    ensures var x, y := RewriteAll(a, parent, id, now), RewriteAll(b, parent, id, later);
            (forall i :: 0 <= i < |x| ==> x[i].(updated := 0) == y[i].(updated := 0)) && AllAlike(x, y, t)
  {
  }

  /** What tidying makes of one row, its timestamp aside. */
  function TidiedRow(row: Option<Thread>, ms: seq<Message>, touched: seq<string>, t: string): Option<Thread> {
    if row.None? || t !in touched then row
    else if Empty(ms, t) then None
    else Some(row.value.(summary := Summarize(ms, t, row.value.summary.lastAt)))
  }

  function RefreshedRow(row: Option<Thread>, ms: seq<Message>, refreshed: string, t: string): Option<Thread> {
    if row.None? || t != refreshed then row else Some(row.value.(summary := Summarize(ms, t, row.value.summary.lastAt)))
  }

  lemma RowOfCleanedUp(threads: map<string, Thread>, ms: seq<Message>, touched: seq<string>, now: nat, t: string)
    ensures RowOf(CleanedUp(threads, ms, touched, now), t) == TidiedRow(RowOf(threads, t), ms, touched, t)
  {
  }

  lemma RowOfRefreshed(threads: map<string, Thread>, ms: seq<Message>, refreshed: string, now: nat, t: string)
    ensures RowOf(RefreshedIn(threads, ms, refreshed, now), t) == RefreshedRow(RowOf(threads, t), ms, refreshed, t)
  {
  }

  /** The row after a whole run. */
  function FinalRow(row: Option<Thread>, ms: seq<Message>, touched: seq<string>, parentThread: string, t: string): Option<Thread> {
    RefreshedRow(TidiedRow(row, ms, touched, t), ms, parentThread, t)
  }

  lemma RowOfReconciled(s: Store, parent: Message, id: string, now: nat, t: string)
    requires Runs(parent, id)
    ensures RowOf(Reconciled(s, parent, id, now).threads, t)
            == FinalRow(RowOf(s.threads, t), RewriteAll(s.messages, parent, id, now), SourcesOf(s, parent, id), parent.thread, t)
  {
    var ms := RewriteAll(s.messages, parent, id, now);
    RowOfCleanedUp(s.threads, ms, SourcesOf(s, parent, id), now, t);
    RowOfRefreshed(CleanedUp(s.threads, ms, SourcesOf(s, parent, id), now), ms, parent.thread, now, t);
  }

  lemma SameRow(row: Option<Thread>, a: seq<Message>, b: seq<Message>, touched: seq<string>, parentThread: string, t: string)
    requires AllAlike(a, b, t)
    ensures FinalRow(row, a, touched, parentThread, t) == FinalRow(row, b, touched, parentThread, t)
  {
    SameEmpty(a, b, t);
    if row.Some? {
      SummarizeAlike(a, b, t, row.value.summary.lastAt);
      SummarizeAlike(a, b, t, Summarize(a, t, row.value.summary.lastAt).lastAt);
    }
  }

  lemma SameEmpty(a: seq<Message>, b: seq<Message>, t: string)
    requires AllAlike(a, b, t)
    ensures Empty(a, t) <==> Empty(b, t)
  {
    LatestAlike(a, b, t);
    LatestIsNewest(a, t);
    LatestIsNewest(b, t);
  }

  /** Running again from messages that are nearly the same does the same. */
  lemma NearlyIsEnough(s: Store, b: seq<Message>, parent: Message, id: string, now: nat, later: nat)
    requires Runs(parent, id) && Nearly(s.messages, b, parent, id)
    ensures Undated(Reconciled(s.(messages := b), parent, id, later)) == Undated(Reconciled(s, parent, id, now))
  {
    var full, again := Reconciled(s, parent, id, now), Reconciled(s.(messages := b), parent, id, later);
    SameSources(s.messages, b, parent, id);
    SameRewritten(s.messages, b, parent, id, now, later, "");
    forall t ensures RowOf(full.threads, t) == RowOf(again.threads, t) {
      SameRewritten(s.messages, b, parent, id, now, later, t);
      RowOfReconciled(s, parent, id, now, t);
      RowOfReconciled(s.(messages := b), parent, id, later, t);
      SameRow(RowOf(s.threads, t), full.messages, again.messages, SourcesOf(s, parent, id), parent.thread, t);
    }
    UndatedIff(full, again);
  }

  // ---------------------------------------------------------------- a crash behind it

  /** The row already says what refreshing it would make it say. */
  predicate RowIsRight(th: Thread, ms: seq<Message>, t: string) { th.summary == Summarize(ms, t, th.summary.lastAt) }

  /** The source threads that the dead run had not tidied. */
  predicate Untidied(s: Store, parent: Message, id: string, done: nat, t: string)
    requires done <= |SourcesOf(s, parent, id)|
  {
    t in SourcesOf(s, parent, id) && t !in SourcesOf(s, parent, id)[..done] && t in s.threads
  }

  predicate NeedsNoTidying(s: Store, parent: Message, id: string, now: nat, point: CrashPoint, t: string)
    requires point.Tidying? && Reached(s, parent, id, point)
  {
    var ms := RewriteAll(s.messages, parent, id, now);
    Untidied(s, parent, id, point.done, t) ==>
      && !Empty(ms, t)
      && ((point.refreshed && t == SourcesOf(s, parent, id)[point.done]) || RowIsRight(s.threads[t], ms, t))
  }

  /** Every source thread not yet tidied keeps a message, and its row was right (or has just been refreshed). */
  ghost predicate Repairable(s: Store, parent: Message, id: string, now: nat, point: CrashPoint)
    requires Reached(s, parent, id, point)
  {
    point.Tidying? ==> forall t :: NeedsNoTidying(s, parent, id, now, point, t)
  }

  /** After the replies have moved, a second run touches no thread but the parent's. */
  lemma RerunOnlyRefreshesParent(s: Store, parent: Message, id: string, now: nat, later: nat, point: CrashPoint)
    requires Runs(parent, id) && point.Tidying? && Reached(s, parent, id, point)
    ensures var crashed := Crashed(s, parent, id, now, point);
            var ms := RewriteAll(crashed.messages, parent, id, later);
            Rerun(s, parent, id, now, later, point) == Store(ms, RefreshedIn(crashed.threads, ms, parent.thread, later))
  {
    var crashed := Crashed(s, parent, id, now, point);
    NoRepliesAreLeft(s, parent, id, now);
    NoSources(crashed.messages, parent.mail.mailbox, parent.thread, id);
    NothingTouched(crashed.threads, RewriteAll(crashed.messages, parent, id, later), later);
  }

  lemma SourceIsNotParent(s: Store, parent: Message, id: string, t: string)
    ensures t in SourcesOf(s, parent, id) ==> t != parent.thread
  {
    SourcesAreDistinct(s.messages, parent.mail.mailbox, parent.thread, id);
  }

  /** The row in the state that the dead run left. */
  function CrashedRow(row: Option<Thread>, ms: seq<Message>, sources: seq<string>, done: nat, refreshed: bool, t: string): Option<Thread>
    requires done + (if refreshed then 1 else 0) <= |sources|
  {
    var tidied := TidiedRow(row, ms, sources[..done], t);
    if refreshed then RefreshedRow(tidied, ms, sources[done], t) else tidied
  }

  lemma RowOfCrashed(s: Store, parent: Message, id: string, now: nat, point: CrashPoint, t: string)
    requires point.Tidying? && Reached(s, parent, id, point)
    ensures RowOf(Crashed(s, parent, id, now, point).threads, t)
            == CrashedRow(RowOf(s.threads, t), RewriteAll(s.messages, parent, id, now), SourcesOf(s, parent, id), point.done, point.refreshed, t)
  {
    var ms, sources := RewriteAll(s.messages, parent, id, now), SourcesOf(s, parent, id);
    RowOfCleanedUp(s.threads, ms, sources[..point.done], now, t);
    if point.refreshed { RowOfRefreshed(CleanedUp(s.threads, ms, sources[..point.done], now), ms, sources[point.done], now, t); }
  }

  lemma RowsAgreeIff(row: Option<Thread>, ms: seq<Message>, sources: seq<string>, done: nat, refreshed: bool, parentThread: string, t: string)
    requires done + (if refreshed then 1 else 0) <= |sources| && (t in sources ==> t != parentThread)
    ensures RefreshedRow(CrashedRow(row, ms, sources, done, refreshed, t), ms, parentThread, t) == FinalRow(row, ms, sources, parentThread, t)
            <==> (row.Some? && t in sources && t !in sources[..done] ==>
                    !Empty(ms, t) && ((refreshed && t == sources[done]) || RowIsRight(row.value, ms, t)))
  {
  }

  lemma RowAfterRerun(s: Store, parent: Message, id: string, now: nat, later: nat, point: CrashPoint, t: string)
    requires Runs(parent, id) && point.Tidying? && Reached(s, parent, id, point)
    ensures RowOf(Rerun(s, parent, id, now, later, point).threads, t) == RowOf(Reconciled(s, parent, id, now).threads, t)
            <==> NeedsNoTidying(s, parent, id, now, point, t)
  {
    var ms, sources := RewriteAll(s.messages, parent, id, now), SourcesOf(s, parent, id);
    var row, crashed := RowOf(s.threads, t), Crashed(s, parent, id, now, point);
    RerunOnlyRefreshesParent(s, parent, id, now, later, point);
    RowOfCrashed(s, parent, id, now, point, t);
    RowOfRefreshed(crashed.threads, RewriteAll(ms, parent, id, later), parent.thread, later, t);
    RowOfReconciled(s, parent, id, now, t);
    RewrittenAgain(s.messages, parent, id, now, later);
    var left := CrashedRow(row, ms, sources, point.done, point.refreshed, t);
    if left.Some? { SummarizeAlike(ms, RewriteAll(ms, parent, id, later), t, left.value.summary.lastAt); }
    SourceIsNotParent(s, parent, id, t);
    RowsAgreeIff(row, ms, sources, point.done, point.refreshed, parent.thread, t);
  }

  /** Exactly when running again makes good for a crash, at every point where a run can die. */
  lemma RerunRepairsIff(s: Store, parent: Message, id: string, now: nat, later: nat, point: CrashPoint)
    requires Runs(parent, id) && Reached(s, parent, id, point)
    ensures Undated(Rerun(s, parent, id, now, later, point)) == Undated(Reconciled(s, parent, id, now))
            <==> Repairable(s, parent, id, now, point)
  {
    match point
    case BeforeNaming => NearlyIsEnough(s, s.messages, parent, id, now, later);
    case BeforeMoving => NearlyIsEnough(s, NameAll(s.messages, parent.id, id, now), parent, id, now, later);
    case Tidying(_, _) =>
      var full, again := Reconciled(s, parent, id, now), Rerun(s, parent, id, now, later, point);
      RerunOnlyRefreshesParent(s, parent, id, now, later, point);
      RewrittenAgain(s.messages, parent, id, now, later);
      UndatedIff(again, full);
      forall t ensures RowOf(again.threads, t) == RowOf(full.threads, t) <==> NeedsNoTidying(s, parent, id, now, point, t) {
        RowAfterRerun(s, parent, id, now, later, point, t);
      }
  }

  // ---------------------------------------------------------------- the leftovers

  /** The second run removes no thread and leaves every row but the parent's. */
  lemma RerunAfterCrashKeepsThreads(s: Store, parent: Message, id: string, now: nat, later: nat, point: CrashPoint)
    requires Runs(parent, id) && point.Tidying? && Reached(s, parent, id, point)
    ensures var crashed, rerun := Crashed(s, parent, id, now, point), Rerun(s, parent, id, now, later, point);
            && rerun.threads.Keys == crashed.threads.Keys
            && forall t :: t in crashed.threads && t != parent.thread ==> rerun.threads[t] == crashed.threads[t]
  {
    RerunOnlyRefreshesParent(s, parent, id, now, later, point);
  }

  datatype Job = Job(parent: Message, id: string, now: nat)

  /** Reconciliations one after the other. */
  function RunJobs(s: Store, jobs: seq<Job>): Store
    decreases |jobs|
  {
    if jobs == [] then s else RunJobs(Reconciled(s, jobs[0].parent, jobs[0].id, jobs[0].now), jobs[1..])
  }

  /** A thread without messages is never removed or changed by reconciliations of messages, which are filed elsewhere. */
  lemma {:induction false} EmptyThreadStays(s: Store, jobs: seq<Job>, t: string)
    requires t in s.threads && Empty(s.messages, t)
    requires forall j :: j in jobs ==> j.parent.thread != t
    ensures t in RunJobs(s, jobs).threads && RunJobs(s, jobs).threads[t] == s.threads[t] && Empty(RunJobs(s, jobs).messages, t)
    decreases |jobs|
  {
    if jobs != [] {
      OneJobKeepsEmpty(s, jobs[0], t);
      EmptyThreadStays(Reconciled(s, jobs[0].parent, jobs[0].id, jobs[0].now), jobs[1..], t);
    }
  }

  lemma OneJobKeepsEmpty(s: Store, j: Job, t: string)
    requires t in s.threads && Empty(s.messages, t) && j.parent.thread != t
    ensures var s' := Reconciled(s, j.parent, j.id, j.now);
            t in s'.threads && s'.threads[t] == s.threads[t] && Empty(s'.messages, t)
  {
    if Runs(j.parent, j.id) {
      SourcesAreDistinct(s.messages, j.parent.mail.mailbox, j.parent.thread, j.id);
      EmptyAfter(s.messages, j.parent, j.id, j.now, t);
    }
  }

  /** A source thread that was emptied but not yet deleted when the run died stays for good: any later reconciliations,
      whatever they are about, leave it there without a message. */
  lemma LeftoverStays(s: Store, parent: Message, id: string, now: nat, point: CrashPoint, jobs: seq<Job>, t: string)
    requires Runs(parent, id) && point.Tidying? && Reached(s, parent, id, point)
    requires Untidied(s, parent, id, point.done, t) && AllMove(s, parent, id, t)
    requires forall j :: j in jobs ==> j.parent.thread != t
    ensures var s' := RunJobs(Crashed(s, parent, id, now, point), jobs);
            t in s'.threads && Empty(s'.messages, t) && t !in Reconciled(s, parent, id, now).threads
  {
    var crashed := Crashed(s, parent, id, now, point);
    SourceIsNotParent(s, parent, id, t);
    EmptyAfter(s.messages, parent, id, now, t);
    EmptyThreadStays(crashed, jobs, t);
  }
}
