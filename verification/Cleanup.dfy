/** The deletion method itself, and the scheduled clean-up that runs it on the oldest expired threads. */
module Cleanup {
  import opened Options
  import opened Retention
  import opened Sequences
  import Lex

  const CALL_LIMIT: nat := 1000
  const BATCH_LIMIT: nat := 50

  /** What goes wrong, if anything: a bulk delete after removing some keys, or one of the D1 statements. */
  datatype Fault = NoFault | DeleteFails(call: nat, gone: set<Name>) | EventsFail(after: nat) | MessagesFail | ThreadFails

  /** The cut-offs of the rows that are deleted by date. */
  datatype Cutoffs = Cutoffs(events: nat, audits: nat, probes: nat, forwards: nat)

  class Archive {
    var messages: map<Name, Message>
    var attachments: map<Name, Attachment>
    var threads: map<Name, Thread>
    var events: map<Name, Option<Name>>
    var forwards: map<(Name, Name), Forward>
    var objects: set<Name>
    var received: map<Name, nat>           // received_at of the events
    var audits: map<Name, nat>
    var probes: map<Name, nat>

    function Content(): Store
      reads this
    {
      Store(messages, attachments, threads, events, forwards, objects)
    }

    /** The clipped, non-empty keys of a query result, each once. */
    method UniqueKeys(rows: seq<Name>) returns (keys: seq<Name>)
      ensures Elements(keys) == Clipped(Elements(rows))
      ensures Distinct(keys)
    {
      keys := [];
      for i := 0 to |rows|
        invariant Elements(keys) == Clipped(Elements(rows[..i]))
        invariant Distinct(keys)
      {
        ClippedMore(rows, i);
        if rows[i] != [] && Clip(rows[i]) !in keys { keys := keys + [Clip(rows[i])]; }
      }
      assert rows[..|rows|] == rows;
    }

    /** R2 deletion, 1000 keys a call; stops at the first call that fails. */
    method DeleteObjects(keys: seq<Name>, fault: Fault) returns (ok: bool, removed: set<Name>)
      modifies this`objects
      ensures objects == old(objects) - removed && removed <= Elements(keys)
      ensures ok <==> !(fault.DeleteFails? && fault.call * 1000 < |keys|)
      ensures ok ==> removed == Elements(keys)
      ensures !ok ==> var n := fault.call * 1000; removed == Elements(keys[..n]) + fault.gone * Elements(Take(keys[n..], 1000))
    {
      var index, call := 0, 0;
      removed := {};
      while index < |keys|
        invariant index == call * CALL_LIMIT && (fault.DeleteFails? ==> call <= fault.call)
        invariant removed == Elements(keys[..if index < |keys| then index else |keys|])
        invariant objects == old(objects) - removed
      {
        var end := if index + CALL_LIMIT < |keys| then index + CALL_LIMIT else |keys|;
        var chunk := Elements(keys[index..end]);
        assert keys[index..end] == Take(keys[index..], CALL_LIMIT);
        assert keys[..end] == keys[..index] + keys[index..end];
        assert Elements(keys[..end]) == Elements(keys[..index]) + chunk;
        if fault.DeleteFails? && fault.call == call {
          objects := objects - fault.gone * chunk;
          removed := removed + fault.gone * chunk;
          return false, removed;
        }
        objects := objects - chunk;
        removed := removed + chunk;
        index, call := index + CALL_LIMIT, call + 1;
      }
      assert keys[..|keys|] == keys;
      ok := true;
    }

    /** One DELETE of events per message of the thread. */
    method DeleteEvents(ids: seq<Name>, fault: Fault) returns (ok: bool, cleared: set<Name>)
      modifies this`events
      ensures events == EventsWithout(old(events), cleared) && cleared <= Elements(ids)
      ensures ok <==> !(fault.EventsFail? && fault.after < |ids|)
      ensures cleared == if ok then Elements(ids) else Elements(ids[..fault.after])
    {
      cleared := {};
      for i := 0 to |ids|
        invariant cleared == Elements(ids[..i]) && events == EventsWithout(old(events), cleared)
        invariant fault.EventsFail? ==> i <= fault.after
      {
        if fault.EventsFail? && fault.after == i { return false, cleared; }
        assert ids[..i + 1] == ids[..i] + [ids[i]];
        events := EventsWithout(events, {ids[i]});
        cleared := cleared + {ids[i]};
      }
      assert ids[..|ids|] == ids;
      ok := true;
    }

    /** A SELECT: the wanted names in some order. */
    method Select(wanted: set<Name>) returns (rows: seq<Name>)
      ensures Elements(rows) == wanted
    {
      var rest := wanted;
      rows := [];
      while rest != {}
        invariant rest <= wanted && Elements(rows) == wanted - rest
      {
        var n :| n in rest;
        ElementsMore(rows, n);
        rows, rest := rows + [n], rest - {n};
      }
    }

    /** deleteThreadData */
    method DeleteThreadData(t: Name, fault: Fault) returns (stop: Stop)
      modifies this`messages, this`attachments, this`threads, this`events, this`forwards, this`objects
      ensures Possible(old(Content()), t, stop) && Content() == After(old(Content()), t, stop)
      ensures fault.NoFault? ==> stop.Completes?
      ensures stop.InObjects? ==> Content().(objects := old(objects)) == old(Content())
    {
      var rows := Select(KeysOf(Content(), t));
      var keys := UniqueKeys(rows);
      var ok, gone := DeleteObjects(keys, fault);
      if !ok { return InObjects(gone); }
      var ids := Select(MessagesOf(Content(), t));
      KeysDependOnRows(old(Content()), Content(), t);
      ok, gone := DeleteEvents(ids, fault);
      if !ok || fault.MessagesFail? { return InEvents(gone); }
      DeleteMessages(t);
      if fault.ThreadFails? { return BeforeThread; }
      threads := threads - {t};
      stop := Completes;
    }

    /** DELETE FROM mail_messages WHERE thread_id=?, cascading to the attachments and the forwarding attempts. */
    method DeleteMessages(t: Name)
      modifies this`messages, this`attachments, this`forwards
      ensures Content() == WithoutMessages(old(Content()), t)
    {
      messages, attachments, forwards :=
        RepliesWithout(Content(), t), AttachmentsWithout(Content(), t), ForwardsWithout(Content(), t);
    }

    /** One expired thread; an empty id is skipped, a failed deletion is logged. */
    method PurgeOne(t: Name, faults: map<Name, Fault>) returns (gone: bool)
      modifies this`messages, this`attachments, this`threads, this`events, this`forwards, this`objects
      ensures threads == if gone then old(threads) - {t} else old(threads)
      ensures gone ==> t != []
      ensures t != [] && t !in faults ==> gone
      ensures OthersStay(old(Content()), Content(), {t})
    {
      if t == [] {
        StayingIsReflexive(Content(), {t});
        return false;
      }
      var stop := DeleteThreadData(t, if t in faults then faults[t] else NoFault);
      DeletionSparesOthers(old(Content()), t, stop);
      gone := stop.Completes?;
    }

    /** One batch of expired threads; a thread whose deletion fails is left for the next run. */
    method Purge(batch: seq<Name>, faults: map<Name, Fault>) returns (purged: set<Name>)
      modifies this`messages, this`attachments, this`threads, this`events, this`forwards, this`objects
      ensures threads == old(threads) - purged
      ensures purged <= Elements(batch) - {[]}
      ensures forall t :: t in batch && t != [] && t !in faults ==> t in purged
      ensures OthersStay(old(Content()), Content(), Elements(batch))
    {
      purged := {};
      StayingIsReflexive(Content(), {});
      for i := 0 to |batch|
        invariant threads == old(threads) - purged && purged <= Elements(batch[..i]) - {[]}
        invariant forall j :: 0 <= j < i && batch[j] != [] && batch[j] !in faults ==> batch[j] in purged
        invariant OthersStay(old(Content()), Content(), Elements(batch[..i]))
      {
        ghost var before := Content();
        var gone := PurgeOne(batch[i], faults);
        if gone { purged := purged + {batch[i]}; }
        OneMoreElement(batch, i);
        StayingIsTransitive(old(Content()), before, Content(), Elements(batch[..i]), {batch[i]});
      }
      assert batch[..|batch|] == batch;
    }

    /** SELECT one batch of due threads, oldest first, and delete them one by one. */
    method PurgeDue(trash: bool, cutoff: nat, faults: map<Name, Fault>) returns (purged: set<Name>)
      modifies this`messages, this`attachments, this`threads, this`events, this`forwards, this`objects
      ensures threads == old(threads) - purged
      ensures OldestPurged(old(threads), purged, Due(old(threads), trash, cutoff), faults.Keys)
      ensures OthersStay(old(Content()), Content(), Due(old(threads), trash, cutoff))
    {
      var batch := OldestBatch(threads, Due(threads, trash, cutoff));
      purged := Purge(batch, faults);
      StayingIsMonotone(old(Content()), Content(), Elements(batch), Due(old(threads), trash, cutoff));
      assert forall t :: t in Elements(batch) - {[]} - faults.Keys ==> t in purged;
    }

    /** The closing batch: all four statements or none. */
    method DeleteByDate(cutoffs: Cutoffs, commits: bool)
      modifies this`events, this`audits, this`probes, this`forwards
      ensures events == if commits then EventsSince(old(events), received, cutoffs.events) else old(events)
      ensures audits == if commits then Since(old(audits), cutoffs.audits) else old(audits)
      ensures probes == if commits then Since(old(probes), cutoffs.probes) else old(probes)
      ensures forwards == if commits then Unsettled(old(forwards), cutoffs.forwards) else old(forwards)
    {
      if commits {
        events := EventsSince(events, received, cutoffs.events);
        audits := Since(audits, cutoffs.audits);
        probes := Since(probes, cutoffs.probes);
        forwards := Unsettled(forwards, cutoffs.forwards);
      }
    }

    /** A retention of 0 days keeps what is not in the trash. */
    method PurgeRetained(retentionDays: nat, cutoff: nat, faults: map<Name, Fault>) returns (purged: set<Name>)
      modifies this`messages, this`attachments, this`threads, this`events, this`forwards, this`objects
      ensures threads == old(threads) - purged
      ensures OldestPurged(old(threads), purged, Expired(old(threads), retentionDays, cutoff), faults.Keys)
      ensures OthersStay(old(Content()), Content(), Expired(old(threads), retentionDays, cutoff))
    {
      if retentionDays > 0 {
        purged := PurgeDue(false, cutoff, faults);
      } else {
        purged := {};
        NothingPurged(threads, faults.Keys);
        StayingIsReflexive(Content(), {});
      }
    }

    /** The two batches of threads. */
    method PurgeExpired(retentionDays: nat, cutoff: nat, trashCutoff: nat, faults: map<Name, Fault>)
      returns (purged: set<Name>, purgedTrash: set<Name>)
      modifies this`messages, this`attachments, this`threads, this`events, this`forwards, this`objects
      ensures threads == old(threads) - (purged + purgedTrash)
      ensures OldestPurged(old(threads), purged, Expired(old(threads), retentionDays, cutoff), faults.Keys)
      ensures OldestPurged(old(threads), purgedTrash, Due(old(threads), true, trashCutoff), faults.Keys)
      ensures OthersStay(old(Content()), Content(), Expired(old(threads), retentionDays, cutoff) + Due(old(threads), true, trashCutoff))
    {
      purged := PurgeRetained(retentionDays, cutoff, faults);
      PurgedAreDue(old(threads), purged, Expired(old(threads), retentionDays, cutoff), faults.Keys);
      ghost var between := Content();
      purgedTrash := PurgeDue(true, trashCutoff, faults);
      TrashIsUntouched(old(threads), between.threads, purged, purgedTrash, trashCutoff, faults.Keys);
      StayingIsTransitive(old(Content()), between, Content(), Expired(old(threads), retentionDays, cutoff), Due(old(threads), true, trashCutoff));
    }

    /** cleanupMail */
    method CleanupMail(retentionDays: nat, cutoff: nat, trashCutoff: nat, faults: map<Name, Fault>, cutoffs: Cutoffs, commits: bool)
      returns (purged: set<Name>, purgedTrash: set<Name>)
      modifies this`messages, this`attachments, this`threads, this`events, this`forwards, this`objects, this`audits, this`probes
      ensures threads == old(threads) - (purged + purgedTrash)
      ensures OldestPurged(old(threads), purged, Expired(old(threads), retentionDays, cutoff), faults.Keys)
      ensures OldestPurged(old(threads), purgedTrash, Due(old(threads), true, trashCutoff), faults.Keys)
      ensures forall r :: r in audits <==> r in old(audits) && !(commits && old(audits)[r] < cutoffs.audits)
      ensures forall r :: r in probes <==> r in old(probes) && !(commits && old(probes)[r] < cutoffs.probes)
      ensures Cleaned(old(Content()), Content(), received, Expired(old(threads), retentionDays, cutoff) + Due(old(threads), true, trashCutoff),
                      cutoffs, commits)
    {
      purged, purgedTrash := PurgeExpired(retentionDays, cutoff, trashCutoff, faults);
      ghost var between := Content();
      DeleteByDate(cutoffs, commits);
      DatesClean(old(Content()), between, Content(), received, Expired(old(threads), retentionDays, cutoff) + Due(old(threads), true, trashCutoff),
                 cutoffs, commits);
    }

    /** The clean-up, run after run without faults, and with cut-offs that do not move. */
    method CleanupRuns(runs: nat, retentionDays: nat, cutoff: nat, trashCutoff: nat, cutoffs: Cutoffs)
      requires [] !in threads && retentionDays > 0
      modifies this`messages, this`attachments, this`threads, this`events, this`forwards, this`objects, this`audits, this`probes
      ensures |Due(threads, false, cutoff)| == Fewer(|Due(old(threads), false, cutoff)|, runs)
      ensures |Due(threads, true, trashCutoff)| == Fewer(|Due(old(threads), true, trashCutoff)|, runs)
      ensures runs > 0 ==> NothingOld(Content(), received, cutoffs)
    {
      for i := 0 to runs
        invariant [] !in threads
        invariant |Due(threads, false, cutoff)| == Fewer(|Due(old(threads), false, cutoff)|, i)
        invariant |Due(threads, true, trashCutoff)| == Fewer(|Due(old(threads), true, trashCutoff)|, i)
        invariant i > 0 ==> NothingOld(Content(), received, cutoffs)
      {
        ghost var before := threads;
        var purged, purgedTrash := CleanupMail(retentionDays, cutoff, trashCutoff, map[], cutoffs, true);
        OneRunCounts(before, threads, purged, purgedTrash, cutoff, trashCutoff);
        FewerAgain(|Due(old(threads), false, cutoff)|, i);
        FewerAgain(|Due(old(threads), true, trashCutoff)|, i);
      }
    }
  }

  /** Rows not older than the cut-off. */
  function Since(rows: map<Name, nat>, cutoff: nat): map<Name, nat> { map r | r in rows && rows[r] >= cutoff :: rows[r] }

  /** Attempts that are recent or still open. */
  function Unsettled(rows: map<(Name, Name), Forward>, cutoff: nat): map<(Name, Name), Forward> {
    map r | r in rows && !IsSettledBefore(rows[r], cutoff) :: rows[r]
  }

  predicate IsSettledBefore(f: Forward, cutoff: nat) { f.settled && f.updated < cutoff }

  predicate IsBefore(received: map<Name, nat>, e: Name, cutoff: nat) { e in received && received[e] < cutoff }

  function EventsSince(events: map<Name, Option<Name>>, received: map<Name, nat>, cutoff: nat): map<Name, Option<Name>> {
    map e | e in events && !IsBefore(received, e, cutoff) :: events[e]
  }

  // ---------------------------------------------------------------- what deleting some threads leaves alone

  predicate MessageIn(s: Store, m: Name, ts: set<Name>) { m in s.messages && s.messages[m].thread in ts }

  /** The event is about a message of one of the threads. */
  predicate InThreads(s: Store, e: Name, ts: set<Name>)
    requires e in s.events
  {
    s.events[e].Some? && MessageIn(s, s.events[e].value, ts)
  }

  /** Nothing is added; the messages, events and forwarding attempts of other threads stay, as they were but for a lost
      parent; and no attempt stays without its message. */
  predicate OthersStay(s: Store, s': Store, ts: set<Name>) {
    && (forall m :: m in s'.messages ==> m in s.messages && SameBut(s, s.messages[m], s'.messages[m], ts))
    && (forall m :: m in s.messages && !MessageIn(s, m, ts) ==> m in s'.messages)
    && (forall e :: e in s'.events ==> e in s.events && s'.events[e] == s.events[e])
    && (forall e :: e in s.events && !InThreads(s, e, ts) ==> e in s'.events)
    && (forall f: (Name, Name) :: f in s'.forwards ==>
          f in s.forwards && s'.forwards[f] == s.forwards[f] && (f.0 in s.messages ==> f.0 in s'.messages))
    && (forall f: (Name, Name) :: f in s.forwards && !MessageIn(s, f.0, ts) ==> f in s'.forwards)
  }

  lemma StayingIsReflexive(s: Store, ts: set<Name>)
    ensures OthersStay(s, s, ts)
  {
  }

  lemma OneMoreElement(batch: seq<Name>, i: nat)
    requires i < |batch|
    ensures Elements(batch[..i + 1]) == Elements(batch[..i]) + {batch[i]}
  {
    assert batch[..i + 1] == batch[..i] + [batch[i]];
    ElementsMore(batch[..i], batch[i]);
  }

  lemma StayingIsMonotone(s: Store, s': Store, ts: set<Name>, us: set<Name>)
    requires OthersStay(s, s', ts) && ts <= us
    ensures OthersStay(s, s', us)
  {
  }

  lemma StayingIsTransitive(a: Store, b: Store, c: Store, ts: set<Name>, us: set<Name>)
    requires OthersStay(a, b, ts) && OthersStay(b, c, us)
    ensures OthersStay(a, c, ts + us)
  {
  }

  /** After a clean-up of the due threads `ts`: nothing is added; a message goes only with its thread; an event goes by age or
      with a message of a due thread, a forwarding attempt by age if it is settled or with such a message; what is too old
      is gone if the closing batch committed; and no attempt stays without its message. */
  predicate Cleaned(s: Store, s': Store, received: map<Name, nat>, ts: set<Name>, cutoffs: Cutoffs, commits: bool) {
    && (forall m :: m in s'.messages ==> m in s.messages && SameBut(s, s.messages[m], s'.messages[m], ts))
    && (forall m :: m in s.messages && !MessageIn(s, m, ts) ==> m in s'.messages)
    && (forall e :: e in s'.events ==>
          e in s.events && s'.events[e] == s.events[e] && !(commits && e in received && received[e] < cutoffs.events))
    && (forall e :: e in s.events && !InThreads(s, e, ts) && !(commits && e in received && received[e] < cutoffs.events) ==> e in s'.events)
    && (forall f: (Name, Name) :: f in s'.forwards ==>
          && f in s.forwards && s'.forwards[f] == s.forwards[f] && (f.0 in s.messages ==> f.0 in s'.messages)
          && !(commits && s.forwards[f].settled && s.forwards[f].updated < cutoffs.forwards))
    && (forall f: (Name, Name) ::
          f in s.forwards && !MessageIn(s, f.0, ts) && !(commits && s.forwards[f].settled && s.forwards[f].updated < cutoffs.forwards)
          ==> f in s'.forwards)
  }

  /** No event, and no settled forwarding attempt, from before its cut-off. */
  predicate NothingOld(s: Store, received: map<Name, nat>, cutoffs: Cutoffs) {
    && (forall e :: e in s.events && e in received ==> received[e] >= cutoffs.events)
    && (forall f: (Name, Name) :: f in s.forwards && s.forwards[f].settled ==> s.forwards[f].updated >= cutoffs.forwards)
  }

  lemma DatesClean(s: Store, between: Store, s': Store, received: map<Name, nat>, ts: set<Name>, cutoffs: Cutoffs, commits: bool)
    requires OthersStay(s, between, ts) && s'.messages == between.messages
    requires s'.events == if commits then EventsSince(between.events, received, cutoffs.events) else between.events
    requires s'.forwards == if commits then Unsettled(between.forwards, cutoffs.forwards) else between.forwards
    ensures Cleaned(s, s', received, ts, cutoffs, commits)
  {
  }

  lemma DeletionSparesOthers(s: Store, t: Name, stop: Stop)
    requires Possible(s, t, stop)
    ensures OthersStay(s, After(s, t, stop), {t})
  {
  }

  // ---------------------------------------------------------------- which threads are due

  /** last_message_at orders what is kept, updated_at orders the trash. */
  function Stamp(th: Thread): nat { if th.trash then th.updated else th.lastAt }

  function Due(threads: map<Name, Thread>, trash: bool, cutoff: nat): set<Name> {
    set t | t in threads && threads[t].trash == trash && Stamp(threads[t]) < cutoff
  }

  /** What the retention period says is due; 0 days means for ever. */
  function Expired(threads: map<Name, Thread>, retentionDays: nat, cutoff: nat): set<Name> {
    if retentionDays > 0 then Due(threads, false, cutoff) else {}
  }

  /** ORDER BY the stamp, then the id. */
  predicate Before(threads: map<Name, Thread>, a: Name, b: Name) {
    && a in threads && b in threads
    && (Stamp(threads[a]) < Stamp(threads[b]) || (Stamp(threads[a]) == Stamp(threads[b]) && Lex.Less(a, b)))
  }

  /** The first 50 of the due threads in that order. */
  predicate IsBatch(batch: seq<Name>, threads: map<Name, Thread>, due: set<Name>) {
    && due <= threads.Keys && Elements(batch) <= due
    && |batch| == (if |due| < BATCH_LIMIT then |due| else BATCH_LIMIT)
    && (forall i, j :: 0 <= i < j < |batch| ==> Before(threads, batch[i], batch[j]))
    && (forall b, e :: b in batch && e in due && e !in batch ==> Before(threads, b, e))
  }

  /** What "due" and "oldest first" mean: kept threads go by their last message, threads in the trash by their last change;
      a batch holds at most 50 of those from before the cut-off, in the order of that stamp, and any that is left out has a
      later stamp than all in the batch, or the same and a greater id. */
  lemma BatchIsOldest(batch: seq<Name>, threads: map<Name, Thread>, trash: bool, cutoff: nat)
    requires IsBatch(batch, threads, Due(threads, trash, cutoff))
    ensures forall t :: t in Due(threads, trash, cutoff) <==>
              t in threads && (if trash then threads[t].trash && threads[t].updated < cutoff else !threads[t].trash && threads[t].lastAt < cutoff)
    ensures |batch| <= 50 && (|batch| < 50 ==> forall t :: t in Due(threads, trash, cutoff) ==> t in batch)
    ensures forall i, j :: 0 <= i < j < |batch| ==>
              if trash then threads[batch[i]].updated <= threads[batch[j]].updated else threads[batch[i]].lastAt <= threads[batch[j]].lastAt
    ensures forall b, t :: b in batch && t in Due(threads, trash, cutoff) && t !in batch ==>
              var (x, y) := if trash then (threads[b].updated, threads[t].updated) else (threads[b].lastAt, threads[t].lastAt);
              x < y || (x == y && Lex.Less(b, t))
  {
    var due := Due(threads, trash, cutoff);
    forall b | b in batch ensures b in due { assert b in Elements(batch); }
    forall i, j | 0 <= i < j < |batch| ensures Before(threads, batch[i], batch[j]) && batch[i] in due && batch[j] in due {}
    BatchCount(batch, threads, due);
    if |batch| < 50 { SubsetOfEqualSize(Elements(batch), due); }
  }

  lemma SubsetOfEqualSize<T>(a: set<T>, b: set<T>)
    requires a <= b && |a| == |b|
    ensures a == b
  {
    if x :| x in b - a {
      SubsetSize(a + {x}, b);
    }
    assert b == a + (b - a);
  }

  lemma SubsetSize<T>(a: set<T>, b: set<T>)
    requires a <= b
    ensures |a| <= |b|
  {
    assert b == a + (b - a);
  }

  lemma BeforeIsTotal(threads: map<Name, Thread>, a: Name, b: Name)
    requires a in threads && b in threads
    ensures a == b || Before(threads, a, b) || Before(threads, b, a)
  {
    Lex.LessIsTotal(a, b);
  }

  lemma BeforeIsTransitive(threads: map<Name, Thread>, a: Name, b: Name, c: Name)
    requires a in threads && b in threads && c in threads && Before(threads, a, b) && Before(threads, b, c)
    ensures Before(threads, a, c)
  {
    if Lex.Less(a, b) && Lex.Less(b, c) { Lex.LessIsTransitive(a, b, c); }
  }

  method Oldest(threads: map<Name, Thread>, due: set<Name>) returns (first: Name)
    requires due != {} && due <= threads.Keys
    ensures first in due && forall e :: e in due && e != first ==> Before(threads, first, e)
  {
    first :| first in due;
    var seen := {first};
    while seen != due
      invariant first in seen && seen <= due
      invariant forall e :: e in seen && e != first ==> Before(threads, first, e)
      decreases due - seen
    {
      var n :| n in due && n !in seen;
      BeforeIsTotal(threads, first, n);
      if Before(threads, n, first) {
        forall e | e in seen && e != first ensures Before(threads, n, e) { BeforeIsTransitive(threads, n, first, e); }
        first := n;
      }
      seen := seen + {n};
    }
  }

  /** The batch so far, and the due threads that are left. */
  predicate Picked(batch: seq<Name>, rest: set<Name>, threads: map<Name, Thread>, due: set<Name>) {
    && rest <= due && Elements(batch) == due - rest && |batch| + |rest| == |due|
    && (forall i, j :: 0 <= i < j < |batch| ==> Before(threads, batch[i], batch[j]))
    && (forall b, e :: b in batch && e in rest ==> Before(threads, b, e))
  }

  lemma PickMore(batch: seq<Name>, rest: set<Name>, threads: map<Name, Thread>, due: set<Name>, n: Name)
    requires Picked(batch, rest, threads, due) && n in rest
    requires forall e :: e in rest && e != n ==> Before(threads, n, e)
    ensures Picked(batch + [n], rest - {n}, threads, due)
  {
    ElementsMore(batch, n);
    forall i | 0 <= i < |batch| ensures Before(threads, batch[i], n) { assert batch[i] in batch; }
  }

  lemma PickedIsBatch(batch: seq<Name>, rest: set<Name>, threads: map<Name, Thread>, due: set<Name>)
    requires Picked(batch, rest, threads, due) && due <= threads.Keys
    requires |batch| <= BATCH_LIMIT && (|batch| == BATCH_LIMIT || rest == {})
    ensures IsBatch(batch, threads, due)
  {
    forall b, e | b in batch && e in due && e !in batch ensures Before(threads, b, e) { assert e !in Elements(batch); }
  }

  /** SELECT ... ORDER BY ... LIMIT 50 */
  method OldestBatch(threads: map<Name, Thread>, due: set<Name>) returns (batch: seq<Name>)
    requires due <= threads.Keys
    ensures IsBatch(batch, threads, due)
  {
    var rest := due;
    batch := [];
    while |batch| < BATCH_LIMIT && rest != {}
      invariant Picked(batch, rest, threads, due) && |batch| <= BATCH_LIMIT
    {
      var n := Oldest(threads, rest);
      PickMore(batch, rest, threads, due, n);
      batch, rest := batch + [n], rest - {n};
    }
    PickedIsBatch(batch, rest, threads, due);
  }

  /** What one run takes of the due threads: some of the 50 oldest, all of them but for faults (and for an empty id). */
  ghost predicate OldestPurged(threads: map<Name, Thread>, purged: set<Name>, due: set<Name>, faulty: set<Name>) {
    exists batch :: IsBatch(batch, threads, due) && purged <= Elements(batch) && Elements(batch) - {[]} - faulty <= purged
  }

  lemma NothingPurged(threads: map<Name, Thread>, faulty: set<Name>)
    ensures OldestPurged(threads, {}, {}, faulty)
  {
    assert IsBatch([], threads, {});
  }

  lemma PurgedAreDue(threads: map<Name, Thread>, purged: set<Name>, due: set<Name>, faulty: set<Name>)
    requires OldestPurged(threads, purged, due, faulty)
    ensures purged <= due
  {
  }

  lemma TrashIsUntouched(threads: map<Name, Thread>, between: map<Name, Thread>, purged: set<Name>, purgedTrash: set<Name>,
                         cutoff: nat, faulty: set<Name>)
    requires between == threads - purged && forall t :: t in purged && t in threads ==> !threads[t].trash
    requires OldestPurged(between, purgedTrash, Due(between, true, cutoff), faulty)
    ensures OldestPurged(threads, purgedTrash, Due(threads, true, cutoff), faulty)
    ensures Due(between, true, cutoff) == Due(threads, true, cutoff)
  {
    assert Due(between, true, cutoff) == Due(threads, true, cutoff);
    var batch :| IsBatch(batch, between, Due(between, true, cutoff)) && purgedTrash <= Elements(batch) && Elements(batch) - {[]} - faulty <= purgedTrash;
    SameBatch(batch, between, threads, Due(between, true, cutoff));
  }

  lemma SameBatch(batch: seq<Name>, fewer: map<Name, Thread>, more: map<Name, Thread>, due: set<Name>)
    requires due <= fewer.Keys && fewer.Keys <= more.Keys && forall t :: t in fewer ==> fewer[t] == more[t]
    requires IsBatch(batch, fewer, due)
    ensures IsBatch(batch, more, due)
  {
  }

  lemma ClippedMore(rows: seq<Name>, i: nat)
    requires i < |rows|
    ensures Clipped(Elements(rows[..i + 1])) == Clipped(Elements(rows[..i])) + if rows[i] == [] then {} else {Clip(rows[i])}
  {
  }

  // ---------------------------------------------------------------- repeated runs

  /** Of the due threads of one kind, a batch of the oldest is gone and the others are left. */
  ghost predicate OldestGone(threads: map<Name, Thread>, left: map<Name, Thread>, trash: bool, cutoff: nat) {
    exists batch :: IsBatch(batch, threads, Due(threads, trash, cutoff))
                    && Due(left, trash, cutoff) == Due(threads, trash, cutoff) - Elements(batch)
  }

  /** A run without faults is such a step, for either kind. */
  lemma OldestAreGone(threads: map<Name, Thread>, left: map<Name, Thread>, purged: set<Name>, others: set<Name>, trash: bool, cutoff: nat)
    requires [] !in threads && OldestPurged(threads, purged, Due(threads, trash, cutoff), {})
    requires left == threads - (purged + others) && forall t :: t in others && t in threads ==> threads[t].trash != trash
    ensures OldestGone(threads, left, trash, cutoff)
  {
  }

  lemma BatchCount(batch: seq<Name>, threads: map<Name, Thread>, due: set<Name>)
    requires IsBatch(batch, threads, due)
    ensures |Elements(batch)| == |batch|
  {
    forall i, j | 0 <= i < j < |batch| ensures batch[i] != batch[j] {
      assert Before(threads, batch[i], batch[j]);
      Lex.LessIsIrreflexive(batch[i]);
    }
    DistinctCount(batch);
  }

  function Fewer(n: nat, runs: nat): nat { if n > BATCH_LIMIT * runs then n - BATCH_LIMIT * runs else 0 }

  lemma RunCount(threads: map<Name, Thread>, left: map<Name, Thread>, trash: bool, cutoff: nat)
    requires OldestGone(threads, left, trash, cutoff)
    ensures |Due(left, trash, cutoff)| == Fewer(|Due(threads, trash, cutoff)|, 1)
  {
    var due := Due(threads, trash, cutoff);
    var batch :| IsBatch(batch, threads, due) && Due(left, trash, cutoff) == due - Elements(batch);
    BatchCount(batch, threads, due);
  }

  lemma FewerAgain(n: nat, runs: nat)
    ensures Fewer(Fewer(n, runs), 1) == Fewer(n, runs + 1)
  {
  }

  lemma OneRunCounts(before: map<Name, Thread>, left: map<Name, Thread>, purged: set<Name>, purgedTrash: set<Name>, cutoff: nat, trashCutoff: nat)
    requires [] !in before && left == before - (purged + purgedTrash)
    requires OldestPurged(before, purged, Due(before, false, cutoff), {})
    requires OldestPurged(before, purgedTrash, Due(before, true, trashCutoff), {})
    ensures |Due(left, false, cutoff)| == Fewer(|Due(before, false, cutoff)|, 1)
    ensures |Due(left, true, trashCutoff)| == Fewer(|Due(before, true, trashCutoff)|, 1)
  {
    PurgedAreDue(before, purged, Due(before, false, cutoff), {});
    PurgedAreDue(before, purgedTrash, Due(before, true, trashCutoff), {});
    OldestAreGone(before, left, purged, purgedTrash, false, cutoff);
    OldestAreGone(before, left, purgedTrash, purged, true, trashCutoff);
    RunCount(before, left, false, cutoff);
    RunCount(before, left, true, trashCutoff);
  }

  /** Run after run, with a fixed cut-off, the expired set shrinks by 50, oldest first, until it is empty. */
  lemma {:induction false} RunsDrain(tables: seq<map<Name, Thread>>, trash: bool, cutoff: nat)
    requires tables != [] && forall i :: 0 <= i < |tables| - 1 ==> OldestGone(tables[i], tables[i + 1], trash, cutoff)
    ensures |Due(tables[|tables| - 1], trash, cutoff)| == Fewer(|Due(tables[0], trash, cutoff)|, |tables| - 1)
  {
    if |tables| > 1 {
      var before := tables[..|tables| - 1];
      forall i | 0 <= i < |before| - 1 ensures OldestGone(before[i], before[i + 1], trash, cutoff) {
        assert OldestGone(tables[i], tables[i + 1], trash, cutoff);
      }
      RunsDrain(before, trash, cutoff);
      RunCount(tables[|tables| - 2], tables[|tables| - 1], trash, cutoff);
    }
  }
}
