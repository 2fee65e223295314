/**
The conversation list is a cache: one row per thread that summarises its messages.  Refreshing
a row, and moving replies into the conversation of the message they answer once that message's
provider-side Message-ID becomes known.
*/
module Threads {
  import opened Options
  import opened Sequences

  datatype Direction = Incoming | Outgoing

  /** The columns of a message that nothing here writes. */
  datatype Mail = Mail(
    mailbox: string, direction: Direction, received: Option<nat>, sent: Option<nat>, created: nat,
    isRead: bool, isReply: bool, hasAttachment: bool,
    from: string, envelopeFrom: string, envelopeTo: string, preview: string, status: string,
    inReplyTo: string, references: string)

  datatype Message = Message(id: string, thread: string, mail: Mail, providerId: string, updated: nat)

  /** The columns of the latest message that the list shows. */
  datatype Latest = Latest(
    id: string, direction: Direction, from: string, envelopeFrom: string, envelopeTo: string, preview: string, status: string)

  datatype Summary = Summary(
    unread: nat, isReplied: bool, lastAt: nat, latest: Option<Latest>, hasIncoming: bool, hasOutgoing: bool, hasAttachment: bool)

  datatype Thread = Thread(mailbox: string, subject: string, summary: Summary, updated: nat)

  /** mail_messages in row order and mail_threads by key. */
  datatype Store = Store(messages: seq<Message>, threads: map<string, Thread>)

  // ---------------------------------------------------------------- the summary

  /** COALESCE(received_at, sent_at, created_at) */
  function TimeOf(m: Message): nat {
    if m.mail.received.Some? then m.mail.received.value else if m.mail.sent.Some? then m.mail.sent.value else m.mail.created
  }

  /** ORDER BY TimeOf DESC, created_at DESC */
  predicate Newer(a: Message, b: Message) { TimeOf(a) > TimeOf(b) || (TimeOf(a) == TimeOf(b) && a.mail.created > b.mail.created) }

  /** The first row of that order; among rows it does not tell apart, the one stored first. */
  function LatestOf(ms: seq<Message>, t: string): Option<Message> {
    if ms == [] then None
    else
      var best, m := LatestOf(ms[..|ms| - 1], t), ms[|ms| - 1];
      if m.thread == t && (best.None? || Newer(m, best.value)) then Some(m) else best
  }

  function UnreadOf(ms: seq<Message>, t: string): nat {
    if ms == [] then 0
    else
      var m := ms[|ms| - 1];
      UnreadOf(ms[..|ms| - 1], t) + if m.thread == t && m.mail.direction.Incoming? && !m.mail.isRead then 1 else 0
  }

  predicate Empty(ms: seq<Message>, t: string) { forall m :: m in ms ==> m.thread != t }

  predicate IsIncoming(m: Message) { m.mail.direction.Incoming? }
  predicate IsOutgoing(m: Message) { m.mail.direction.Outgoing? }
  predicate OutgoingReply(m: Message) { m.mail.direction.Outgoing? && m.mail.isReply }
  predicate HasAttachment(m: Message) { m.mail.hasAttachment }

  predicate Any(ms: seq<Message>, t: string, wanted: Message -> bool) {
    exists m :: m in ms && m.thread == t && wanted(m)
  }

  function Columns(m: Message): Latest {
    Latest(m.id, m.mail.direction, m.mail.from, m.mail.envelopeFrom, m.mail.envelopeTo, m.mail.preview, m.mail.status)
  }

  /** What refreshThread computes; an empty thread keeps its last_message_at. */
  function Summarize(ms: seq<Message>, t: string, lastAt: nat): Summary {
    var latest := LatestOf(ms, t);
    Summary(
      UnreadOf(ms, t),
      Any(ms, t, OutgoingReply),
      if latest.Some? then TimeOf(latest.value) else lastAt,
      if latest.Some? then Some(Columns(latest.value)) else None,
      Any(ms, t, IsIncoming),
      Any(ms, t, IsOutgoing),
      Any(ms, t, HasAttachment))
  }

  function Refreshed(th: Thread, ms: seq<Message>, t: string, now: nat): Thread {
    th.(summary := Summarize(ms, t, th.summary.lastAt), updated := now)
  }

  /** The latest message is one of the thread's, none of them is newer, and MAX over the thread is its time. */
  lemma {:induction false} LatestIsNewest(ms: seq<Message>, t: string)
    ensures LatestOf(ms, t).None? <==> Empty(ms, t)
    ensures LatestOf(ms, t).Some? ==> LatestOf(ms, t).value in ms && LatestOf(ms, t).value.thread == t
    ensures forall m :: m in ms && m.thread == t && LatestOf(ms, t).Some? ==>
              !Newer(m, LatestOf(ms, t).value) && TimeOf(m) <= TimeOf(LatestOf(ms, t).value)
  {
    if ms != [] {
      var init, last := ms[..|ms| - 1], ms[|ms| - 1];
      LatestIsNewest(init, t);
      assert forall m :: m in ms <==> m in init || m == last;
    }
  }

  // ---------------------------------------------------------------- what a summary says, message by message

  /** The rows of unread incoming mail. */
  function UnreadRows(ms: seq<Message>, t: string): set<int> {
    set i | 0 <= i < |ms| && ms[i].thread == t && ms[i].mail.direction == Incoming && ms[i].mail.isRead == false
  }

  lemma {:induction false} UnreadIsCount(ms: seq<Message>, t: string)
    ensures UnreadOf(ms, t) == |UnreadRows(ms, t)|
  {
    if ms != [] {
      var init, n := ms[..|ms| - 1], |ms| - 1;
      UnreadIsCount(init, t);
      assert forall i :: 0 <= i < n ==> init[i] == ms[i];
      assert UnreadRows(ms, t) == UnreadRows(init, t) + if n in UnreadRows(ms, t) then {n} else {};
    }
  }

  /** The message dates from `at`: when it was received, or else sent, or else created. */
  predicate DatesFrom(m: Message, at: nat) {
    match (m.mail.received, m.mail.sent)
    case (Some(r), _) => at == r
    case (None, Some(s)) => at == s
    case (None, None) => at == m.mail.created
  }

  /** Row i is the latest of the thread: no other dates from later, nor from the same time and was created later. */
  ghost predicate IsLatestRow(ms: seq<Message>, t: string, i: nat) {
    && i < |ms| && ms[i].thread == t
    && forall m, at, at' :: m in ms && m.thread == t && DatesFrom(m, at) && DatesFrom(ms[i], at') ==>
         at <= at' && (at == at' ==> m.mail.created <= ms[i].mail.created)
  }

  /** The columns show this message. */
  predicate Shows(l: Latest, m: Message) {
    && l.id == m.id && l.direction == m.mail.direction && l.from == m.mail.from && l.preview == m.mail.preview
    && l.envelopeFrom == m.mail.envelopeFrom && l.envelopeTo == m.mail.envelopeTo && l.status == m.mail.status
  }

  /** What a row of the list is to say about the mail in its thread; `lastAt` is what it said before. */
  ghost predicate Says(sum: Summary, ms: seq<Message>, t: string, lastAt: nat) {
    && sum.unread == |UnreadRows(ms, t)|
    && (sum.isReplied <==> exists m :: m in ms && m.thread == t && m.mail.direction == Outgoing && m.mail.isReply)
    && (sum.hasIncoming <==> exists m :: m in ms && m.thread == t && m.mail.direction == Incoming)
    && (sum.hasOutgoing <==> exists m :: m in ms && m.thread == t && m.mail.direction == Outgoing)
    && (sum.hasAttachment <==> exists m :: m in ms && m.thread == t && m.mail.hasAttachment)
    && (if forall m :: m in ms ==> m.thread != t then sum.latest.None? && sum.lastAt == lastAt
        else sum.latest.Some? && exists i: nat :: IsLatestRow(ms, t, i) && Shows(sum.latest.value, ms[i]) && DatesFrom(ms[i], sum.lastAt))
  }

  lemma LatestSays(ms: seq<Message>, t: string, lastAt: nat)
    requires LatestOf(ms, t).Some?
    ensures var sum := Summarize(ms, t, lastAt);
            sum.latest.Some? && exists i: nat :: IsLatestRow(ms, t, i) && Shows(sum.latest.value, ms[i]) && DatesFrom(ms[i], sum.lastAt)
  {
    LatestIsNewest(ms, t);
    var m := LatestOf(ms, t).value;
    var i: nat :| i < |ms| && ms[i] == m;
    forall n, at, at' | n in ms && n.thread == t && DatesFrom(n, at) && DatesFrom(ms[i], at')
      ensures at <= at' && (at == at' ==> n.mail.created <= ms[i].mail.created)
    {
      assert !Newer(n, m) && at == TimeOf(n) && at' == TimeOf(m);
    }
    assert IsLatestRow(ms, t, i);
  }

  lemma SummarySays(ms: seq<Message>, t: string, lastAt: nat)
    ensures Says(Summarize(ms, t, lastAt), ms, t, lastAt)
    ensures Summarize(ms, t, lastAt).unread == 0 <==>
              forall m :: m in ms && m.thread == t && m.mail.direction == Incoming ==> m.mail.isRead
  {
    var sum := Summarize(ms, t, lastAt);
    UnreadIsCount(ms, t);
    LatestIsNewest(ms, t);
    if LatestOf(ms, t).Some? { LatestSays(ms, t, lastAt); }
    if sum.unread == 0 {
      forall m | m in ms && m.thread == t && m.mail.direction == Incoming ensures m.mail.isRead {
        var i :| 0 <= i < |ms| && ms[i] == m;
        assert i !in UnreadRows(ms, t);
      }
    } else if i :| i in UnreadRows(ms, t) {
      assert ms[i] in ms;
    }
  }

  // ---------------------------------------------------------------- reconciling a provider-side Message-ID

  predicate Contains(text: string, part: string) { exists i :: 0 <= i <= |text| && part <= text[i..] }

  /** An incoming message of the mailbox, in another thread, that names the id. */
  predicate Moves(m: Message, mailbox: string, parentThread: string, id: string) {
    && m.mail.direction.Incoming? && m.mail.mailbox == mailbox && m.thread != parentThread
    && (m.mail.inReplyTo == id || Contains(m.mail.references, id))
  }

  /** SELECT DISTINCT thread_id */
  function Sources(ms: seq<Message>, mailbox: string, parentThread: string, id: string): seq<string> {
    if ms == [] then []
    else
      var before, m := Sources(ms[..|ms| - 1], mailbox, parentThread, id), ms[|ms| - 1];
      if Moves(m, mailbox, parentThread, id) && m.thread !in before then before + [m.thread] else before
  }

  /** The parent learns the id, unless it knows one already. */
  function Named(m: Message, parentId: string, id: string, now: nat): Message {
    if m.id == parentId then m.(providerId := if m.providerId == "" then id else m.providerId, updated := now) else m
  }

  function Moved(m: Message, mailbox: string, parentThread: string, id: string, now: nat): Message {
    if Moves(m, mailbox, parentThread, id) then m.(thread := parentThread, updated := now) else m
  }

  function Rewritten(m: Message, parent: Message, id: string, now: nat): Message {
    Moved(Named(m, parent.id, id, now), parent.mail.mailbox, parent.thread, id, now)
  }

  function RewriteAll(ms: seq<Message>, parent: Message, id: string, now: nat): (r: seq<Message>)
    ensures |r| == |ms| && forall i :: 0 <= i < |ms| ==> r[i] == Rewritten(ms[i], parent, id, now)
  {
    seq(|ms|, i requires 0 <= i < |ms| => Rewritten(ms[i], parent, id, now))
  }

  /** Each thread of `touched` is refreshed, and deleted if it has become empty. */
  function CleanedUp(threads: map<string, Thread>, ms: seq<Message>, touched: seq<string>, now: nat): map<string, Thread> {
    map t | t in threads && !(t in touched && Empty(ms, t)) ::
      if t in touched then Refreshed(threads[t], ms, t, now) else threads[t]
  }

  function RefreshedIn(threads: map<string, Thread>, ms: seq<Message>, t: string, now: nat): map<string, Thread> {
    if t in threads then threads[t := Refreshed(threads[t], ms, t, now)] else threads
  }

  function SourcesOf(s: Store, parent: Message, id: string): seq<string> { Sources(s.messages, parent.mail.mailbox, parent.thread, id) }

  /** The whole of reconcileProviderMessageId. */
  function Reconciled(s: Store, parent: Message, id: string, now: nat): Store {
    if id == "" || parent.mail.mailbox == "" then s
    else
      var ms := RewriteAll(s.messages, parent, id, now);
      Store(ms, RefreshedIn(CleanedUp(s.threads, ms, SourcesOf(s, parent, id), now), ms, parent.thread, now))
  }

  /** Where a run of reconcileProviderMessageId can die: before either message update, between the two, or with so many
      source threads refreshed and, if empty, deleted; perhaps the next one has been refreshed too. */
  datatype CrashPoint = BeforeNaming | BeforeMoving | Tidying(done: nat, refreshed: bool)

  predicate Reached(s: Store, parent: Message, id: string, point: CrashPoint) {
    point.Tidying? ==> point.done + (if point.refreshed then 1 else 0) <= |SourcesOf(s, parent, id)|
  }

  function NameAll(ms: seq<Message>, parentId: string, id: string, now: nat): (r: seq<Message>)
    ensures |r| == |ms| && forall i :: 0 <= i < |ms| ==> r[i] == Named(ms[i], parentId, id, now)
  {
    seq(|ms|, i requires 0 <= i < |ms| => Named(ms[i], parentId, id, now))
  }

  /** What such a run leaves behind. */
  function Crashed(s: Store, parent: Message, id: string, now: nat, point: CrashPoint): Store
    requires Reached(s, parent, id, point)
  {
    match point
    case BeforeNaming => s
    case BeforeMoving => s.(messages := NameAll(s.messages, parent.id, id, now))
    case Tidying(done, refreshed) =>
      var ms, sources := RewriteAll(s.messages, parent, id, now), SourcesOf(s, parent, id);
      var threads := CleanedUp(s.threads, ms, sources[..done], now);
      Store(ms, if refreshed then RefreshedIn(threads, ms, sources[done], now) else threads)
  }

  class MailStore {
    var messages: seq<Message>
    var threads: map<string, Thread>

    function Content(): Store
      reads this
    {
      Store(messages, threads)
    }

    /** One UPDATE statement; a thread without a row stays without. */
    method RefreshThread(t: string, now: nat)
      modifies this`threads
      ensures threads == RefreshedIn(old(threads), messages, t, now)
    {
      if t in threads { threads := threads[t := Refreshed(threads[t], messages, t, now)]; }
    }

    method DeleteIfEmpty(t: string)
      modifies this`threads
      ensures threads == if Empty(messages, t) then old(threads) - {t} else old(threads)
    {
      if Empty(messages, t) { threads := threads - {t}; }
    }

    method UpdateMessages(parent: Message, id: string, now: nat)
      modifies this`messages
      ensures messages == RewriteAll(old(messages), parent, id, now)
    {
      messages := seq(|messages|, i requires 0 <= i < |messages| reads this => Named(messages[i], parent.id, id, now));
      messages := seq(|messages|, i requires 0 <= i < |messages| reads this => Moved(messages[i], parent.mail.mailbox, parent.thread, id, now));
    }

    /** reconcileProviderMessageId */
    method ReconcileProviderMessageId(parent: Message, id: string, now: nat)
      modifies this
      ensures Content() == Reconciled(old(Content()), parent, id, now)
    {
      if id == "" || parent.mail.mailbox == "" { return; }
      ghost var was := Content();
      var oldThreads := Sources(messages, parent.mail.mailbox, parent.thread, id);
      UpdateMessages(parent, id, now);
      assert oldThreads[..0] == [];
      NothingTouched(was.threads, messages, now);
      for i := 0 to |oldThreads|
        invariant Content() == Crashed(was, parent, id, now, Tidying(i, false))
      {
        CrashPointsFollow(was, parent, id, now, i);
        RefreshThread(oldThreads[i], now);
        assert Content() == Crashed(was, parent, id, now, Tidying(i, true));
        DeleteIfEmpty(oldThreads[i]);
      }
      assert oldThreads[..|oldThreads|] == oldThreads;
      RefreshThread(parent.thread, now);
    }
  }

  lemma {:induction false} SourcesAreDistinct(ms: seq<Message>, mailbox: string, parentThread: string, id: string)
    ensures Distinct(Sources(ms, mailbox, parentThread, id))
    ensures forall t :: t in Sources(ms, mailbox, parentThread, id) <==>
              exists m :: m in ms && Moves(m, mailbox, parentThread, id) && m.thread == t
  {
    if ms != [] {
      var init, last := ms[..|ms| - 1], ms[|ms| - 1];
      SourcesAreDistinct(init, mailbox, parentThread, id);
      assert forall m :: m in ms <==> m in init || m == last;
      if Moves(last, mailbox, parentThread, id) { assert last in ms; }
    }
  }

  lemma CleanUpStep(threads: map<string, Thread>, ms: seq<Message>, touched: seq<string>, t: string, now: nat)
    requires t !in touched
    ensures var refreshed := RefreshedIn(CleanedUp(threads, ms, touched, now), ms, t, now);
            CleanedUp(threads, ms, touched + [t], now) == if Empty(ms, t) then refreshed - {t} else refreshed
  {
  }

  /** From one source thread to the next. */
  lemma CrashPointsFollow(s: Store, parent: Message, id: string, now: nat, i: nat)
    requires i < |SourcesOf(s, parent, id)|
    ensures var t, before := SourcesOf(s, parent, id)[i], Crashed(s, parent, id, now, Tidying(i, false));
            var refreshed := RefreshedIn(before.threads, before.messages, t, now);
            && Crashed(s, parent, id, now, Tidying(i, true)) == before.(threads := refreshed)
            && Crashed(s, parent, id, now, Tidying(i + 1, false))
               == before.(threads := if Empty(before.messages, t) then refreshed - {t} else refreshed)
  {
    var sources := SourcesOf(s, parent, id);
    SourcesAreDistinct(s.messages, parent.mail.mailbox, parent.thread, id);
    assert sources[..i + 1] == sources[..i] + [sources[i]];
    CleanUpStep(s.threads, RewriteAll(s.messages, parent, id, now), sources[..i], sources[i], now);
  }

  // ---------------------------------------------------------------- what reconciling keeps and changes

  /** Message ids are unique and every message's thread has a row. */
  predicate Consistent(s: Store) {
    && (forall m :: m in s.messages ==> m.thread in s.threads)
    && (forall i, j :: 0 <= i < j < |s.messages| ==> s.messages[i].id != s.messages[j].id)
  }

  /** The same message: only where it is filed, the provider-side id and the timestamp may differ. */
  predicate SameMail(a: Message, b: Message) { a.id == b.id && a.mail == b.mail }

  predicate Runs(parent: Message, id: string) { id != "" && parent.mail.mailbox != "" }

  /** No message appears or disappears; exactly the replies of the mailbox move, and only into the parent's thread. */
  lemma MessagesAreConserved(s: Store, parent: Message, id: string, now: nat)
    requires Runs(parent, id)
    ensures var s' := Reconciled(s, parent, id, now);
            && |s'.messages| == |s.messages|
            && forall i :: 0 <= i < |s.messages| ==>
                 var m, m' := s.messages[i], s'.messages[i];
                 && SameMail(m, m')
                 && m'.thread == (if Moves(m, parent.mail.mailbox, parent.thread, id) then parent.thread else m.thread)
                 && m'.providerId == (if m.id == parent.id && m.providerId == "" then id else m.providerId)
                 && m'.updated == (if m.id == parent.id || Moves(m, parent.mail.mailbox, parent.thread, id) then now else m.updated)
  {
  }

  /** Which messages move, in terms of their columns: incoming mail of the parent's mailbox, filed elsewhere, that answers
      the id or mentions it among its references. */
  lemma RepliesMove(s: Store, parent: Message, id: string, now: nat, i: nat)
    requires Runs(parent, id) && i < |s.messages|
    ensures var m := s.messages[i];
            Reconciled(s, parent, id, now).messages[i].thread != m.thread <==>
              && m.mail.direction == Incoming && m.mail.mailbox == parent.mail.mailbox && m.thread != parent.thread
              && (m.mail.inReplyTo == id || exists before, after :: m.mail.references == before + id + after)
  {
    ContainsIs(s.messages[i].mail.references, id);
  }

  lemma ContainsIs(text: string, part: string)
    ensures Contains(text, part) <==> exists before, after :: text == before + part + after
  {
    if Contains(text, part) {
      var i :| 0 <= i <= |text| && part <= text[i..];
      assert text == text[..i] + part + text[i..][|part|..];
    }
    if before, after :| text == before + part + after {
      assert text[|before|..] == part + after;
    }
  }

  lemma NoRepliesAreLeft(s: Store, parent: Message, id: string, now: nat)
    requires Runs(parent, id)
    ensures forall m :: m in RewriteAll(s.messages, parent, id, now) ==> !Moves(m, parent.mail.mailbox, parent.thread, id)
  {
  }

  lemma EmptyAfter(was: seq<Message>, parent: Message, id: string, now: nat, t: string)
    requires t != parent.thread
    ensures Empty(RewriteAll(was, parent, id, now), t)
            <==> forall m :: m in was && m.thread == t ==> Moves(m, parent.mail.mailbox, parent.thread, id)
  {
  }

  lemma ParentThreadIsNotEmpty(was: seq<Message>, parent: Message, id: string, now: nat)
    requires parent in was
    ensures !Empty(RewriteAll(was, parent, id, now), parent.thread)
  {
  }

  predicate AllMove(s: Store, parent: Message, id: string, t: string) {
    forall m :: m in s.messages && m.thread == t ==> Moves(m, parent.mail.mailbox, parent.thread, id)
  }

  /** The threads that go are exactly the ones that had mail and lost all of it; none appears. */
  lemma OnlyEmptiedThreadsGo(s: Store, parent: Message, id: string, now: nat, t: string)
    requires Runs(parent, id) && parent in s.messages
    ensures t in Reconciled(s, parent, id, now).threads <==>
            t in s.threads && !(AllMove(s, parent, id, t) && !Empty(s.messages, t))
  {
    SourcesAreDistinct(s.messages, parent.mail.mailbox, parent.thread, id);
    if t == parent.thread {
      ParentThreadIsNotEmpty(s.messages, parent, id, now);
    } else {
      EmptyAfter(s.messages, parent, id, now, t);
    }
  }

  lemma StillFiled(s: Store, parent: Message, id: string, now: nat, i: nat)
    requires Runs(parent, id) && Consistent(s) && parent in s.messages && i < |s.messages|
    ensures Rewritten(s.messages[i], parent, id, now).thread in Reconciled(s, parent, id, now).threads
  {
  }

  /** Every message still has a thread, and ids stay unique. */
  lemma ConsistencyIsKept(s: Store, parent: Message, id: string, now: nat)
    requires Runs(parent, id) && Consistent(s) && parent in s.messages
    ensures Consistent(Reconciled(s, parent, id, now))
  {
    var ms := RewriteAll(s.messages, parent, id, now);
    forall m | m in ms ensures m.thread in Reconciled(s, parent, id, now).threads {
      var i :| 0 <= i < |ms| && ms[i] == m;
      StillFiled(s, parent, id, now, i);
    }
  }

  // ---------------------------------------------------------------- the cache

  /** For the summary of thread t the two rows count alike. */
  predicate Alike(a: Message, b: Message, t: string) {
    (a.thread == t <==> b.thread == t) && (a.thread == t ==> SameMail(a, b))
  }

  predicate AllAlike(a: seq<Message>, b: seq<Message>, t: string) {
    |a| == |b| && forall i :: 0 <= i < |a| ==> Alike(a[i], b[i], t)
  }

  lemma {:induction false} LatestAlike(a: seq<Message>, b: seq<Message>, t: string)
    requires AllAlike(a, b, t)
    ensures UnreadOf(a, t) == UnreadOf(b, t)
    ensures LatestOf(a, t).Some? <==> LatestOf(b, t).Some?
    ensures LatestOf(a, t).Some? ==> SameMail(LatestOf(a, t).value, LatestOf(b, t).value)
  {
    if a != [] {
      assert Alike(a[|a| - 1], b[|a| - 1], t);
      LatestAlike(a[..|a| - 1], b[..|b| - 1], t);
    }
  }

  lemma ExistsAlike(a: seq<Message>, b: seq<Message>, t: string, wanted: Message -> bool)
    requires AllAlike(a, b, t)
    requires forall m, n :: SameMail(m, n) ==> wanted(m) == wanted(n)
    ensures Any(a, t, wanted) <==> Any(b, t, wanted)
  {
  }

  /** A summary depends on nothing but the mail that is filed in the thread. */
  lemma SummarizeAlike(a: seq<Message>, b: seq<Message>, t: string, lastAt: nat)
    requires AllAlike(a, b, t)
    ensures Summarize(a, t, lastAt) == Summarize(b, t, lastAt)
  {
    LatestAlike(a, b, t);
    ExistsAlike(a, b, t, OutgoingReply);
    ExistsAlike(a, b, t, IsIncoming);
    ExistsAlike(a, b, t, IsOutgoing);
    ExistsAlike(a, b, t, HasAttachment);
  }

  /** The stored row says what recomputing it would say. */
  predicate Exact(s: Store, t: string)
    requires t in s.threads
  {
    s.threads[t].summary == Summarize(s.messages, t, s.threads[t].summary.lastAt)
  }

  lemma RefreshedIsExact(ms: seq<Message>, t: string, lastAt: nat)
    ensures var sum := Summarize(ms, t, lastAt); sum == Summarize(ms, t, sum.lastAt)
  {
  }

  lemma UntouchedIsAlike(was: seq<Message>, parent: Message, id: string, now: nat, t: string)
    requires t != parent.thread && t !in Sources(was, parent.mail.mailbox, parent.thread, id)
    ensures AllAlike(was, RewriteAll(was, parent, id, now), t)
  {
  }

  /** Every thread that gained or lost mail is exact afterwards, whatever it was before; a thread that was not touched
      keeps its row and is exact if it was. */
  lemma CacheIsExact(s: Store, parent: Message, id: string, now: nat, t: string)
    requires Runs(parent, id) && t in Reconciled(s, parent, id, now).threads
    ensures var s', touched := Reconciled(s, parent, id, now), t == parent.thread || t in SourcesOf(s, parent, id);
            && (touched ==> Exact(s', t))
            && (!touched ==> t in s.threads && s'.threads[t] == s.threads[t] && (Exact(s', t) <==> Exact(s, t)))
  {
    var ms := RewriteAll(s.messages, parent, id, now);
    var lastAt := if t in s.threads then s.threads[t].summary.lastAt else 0;
    RefreshedIsExact(ms, t, lastAt);
    if t != parent.thread && t !in SourcesOf(s, parent, id) {
      UntouchedIsAlike(s.messages, parent, id, now, t);
      SummarizeAlike(s.messages, ms, t, lastAt);
    }
  }

  /** In terms of the messages: a thread that gained or lost mail and is still there has a row that says what its mail now
      is, with its subject and mailbox as before; any other row is as it was. */
  lemma TouchedRowsSayWhatIsThere(s: Store, parent: Message, id: string, now: nat, t: string)
    requires Runs(parent, id) && t in Reconciled(s, parent, id, now).threads
    ensures var s', touched := Reconciled(s, parent, id, now), t == parent.thread || t in SourcesOf(s, parent, id);
            && t in s.threads
            && (touched ==>
                  && Says(s'.threads[t].summary, s'.messages, t, s.threads[t].summary.lastAt)
                  && s'.threads[t].mailbox == s.threads[t].mailbox && s'.threads[t].subject == s.threads[t].subject
                  && s'.threads[t].updated == now)
            && (!touched ==> s'.threads[t] == s.threads[t])
  {
    RowAfterwards(s, parent, id, now, t);
    SummarySays(RewriteAll(s.messages, parent, id, now), t, s.threads[t].summary.lastAt);
  }

  lemma RowAfterwards(s: Store, parent: Message, id: string, now: nat, t: string)
    requires Runs(parent, id) && t in Reconciled(s, parent, id, now).threads
    ensures t in s.threads
    ensures var ms, row := RewriteAll(s.messages, parent, id, now), Reconciled(s, parent, id, now).threads[t];
            row == if t == parent.thread || t in SourcesOf(s, parent, id) then Refreshed(s.threads[t], ms, t, now) else s.threads[t]
  {
    SourcesAreDistinct(s.messages, parent.mail.mailbox, parent.thread, id);
  }

  // ---------------------------------------------------------------- running it again

  function Undated(s: Store): Store {
    Store(seq(|s.messages|, i requires 0 <= i < |s.messages| => s.messages[i].(updated := 0)),
          map t | t in s.threads :: s.threads[t].(updated := 0))
  }

  lemma {:induction false} NoSources(ms: seq<Message>, mailbox: string, parentThread: string, id: string)
    requires forall m :: m in ms ==> !Moves(m, mailbox, parentThread, id)
    ensures Sources(ms, mailbox, parentThread, id) == []
  {
    if ms != [] {
      assert ms[|ms| - 1] in ms;
      NoSources(ms[..|ms| - 1], mailbox, parentThread, id);
    }
  }

  lemma RewrittenAgain(ms: seq<Message>, parent: Message, id: string, now: nat, later: nat)
    requires Runs(parent, id)
    ensures var once := RewriteAll(ms, parent, id, now);
            var twice := RewriteAll(once, parent, id, later);
            && (forall i :: 0 <= i < |ms| ==> twice[i] == once[i].(updated := twice[i].updated))
            && (forall t :: AllAlike(once, twice, t))
  {
  }

  /** The same row but for its timestamp. */
  predicate Redated(a: map<string, Thread>, b: map<string, Thread>) {
    a.Keys == b.Keys && forall t :: t in a ==> b[t] == a[t].(updated := b[t].updated)
  }

  lemma NothingTouched(threads: map<string, Thread>, ms: seq<Message>, now: nat)
    ensures CleanedUp(threads, ms, [], now) == threads
  {
  }

  lemma ThreadsAgain(s: Store, parent: Message, id: string, now: nat, later: nat)
    requires Runs(parent, id)
    ensures var once := Reconciled(s, parent, id, now);
            Redated(once.threads, Reconciled(once, parent, id, later).threads)
  {
    var once := Reconciled(s, parent, id, now);
    var ms := RewriteAll(once.messages, parent, id, later);
    NoRepliesAreLeft(s, parent, id, now);
    NoSources(once.messages, parent.mail.mailbox, parent.thread, id);
    NothingTouched(once.threads, ms, later);
    if parent.thread in once.threads {
      CacheIsExact(s, parent, id, now, parent.thread);
      RewrittenAgain(s.messages, parent, id, now, later);
      SummarizeAlike(once.messages, ms, parent.thread, once.threads[parent.thread].summary.lastAt);
    }
  }

  /** A second run changes nothing but timestamps. */
  lemma ReconcilingTwice(s: Store, parent: Message, id: string, now: nat, later: nat)
    requires Runs(parent, id)
    ensures var once := Reconciled(s, parent, id, now);
            Undated(Reconciled(once, parent, id, later)) == Undated(once)
  {
    var once := Reconciled(s, parent, id, now);
    var twice := Reconciled(once, parent, id, later);
    RewrittenAgain(s.messages, parent, id, now, later);
    assert Undated(twice).messages == Undated(once).messages;
    ThreadsAgain(s, parent, id, now, later);
    assert Undated(twice).threads == Undated(once).threads;
  }
}
