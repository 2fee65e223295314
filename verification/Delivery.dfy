/**
Delivery events: the rank-ordered recipient summary, its aggregate, and the optimistic
compare-and-swap loop that concurrent webhook and queue workers run against one message row.
*/
module Delivery {
  import opened Sequences

  datatype Status =
    | Sending | Sent | DeliveryDelayed | Delivered | Opened | Clicked
    | Failed | Suppressed | Bounced | Complained

  function Rank(st: Status): nat {
    match st
    case Sending => 0
    case Sent => 1
    case DeliveryDelayed => 2
    case Delivered => 3
    case Opened => 4
    case Clicked => 5
    case Failed => 6
    case Suppressed => 7
    case Bounced => 8
    case Complained => 9
  }

  predicate Negative(st: Status) { st.Failed? || st.Suppressed? || st.Bounced? || st.Complained? }

  /** The values of mail_messages.status for an outgoing message. */
  datatype MessageStatus = Of(st: Status) | RetryableFailed | PartiallyFailed

  type Summary = map<string, Status>

  datatype Event = Event(id: nat, recipients: seq<string>, status: Status)

  // ---------------------------------------------------------------- the summary as a semilattice

  function Higher(a: Status, b: Status): Status { if Rank(b) >= Rank(a) then b else a }

  /** The keys an event speaks about: its recipients, or "*" when it names none. */
  function Keys(recipients: seq<string>): set<string> {
    if recipients == [] then {"*"} else Elements(recipients)
  }

  /** What one event says by itself. */
  function Contribution(e: Event): Summary {
    map k | k in Keys(e.recipients) :: e.status
  }

  /** The pointwise rank-maximum of two summaries. */
  function Join(a: Summary, b: Summary): Summary {
    map k | k in a.Keys + b.Keys ::
      if k !in a then b[k] else if k !in b then a[k] else Higher(a[k], b[k])
  }

  function JoinAll(events: seq<Event>): Summary {
    if events == [] then map[] else Join(JoinAll(events[..|events| - 1]), Contribution(events[|events| - 1]))
  }

  predicate Below(a: Summary, b: Summary) {
    forall k :: k in a ==> k in b && Rank(a[k]) <= Rank(b[k])
  }

  function Uniform(keys: set<string>, status: Status): Summary { map k | k in keys :: status }

  lemma RaiseOneKey(current: Summary, keys: set<string>, key: string, status: Status)
    ensures var m := Join(current, Uniform(keys, status));
            var previous := if key in m then m[key] else Sending;
            Join(current, Uniform(keys + {key}, status)) == if Rank(status) >= Rank(previous) then m[key := status] else m
  {
  }

  /** The source's loop over recipients computes the join with the event's contribution. */
  method UpdateRecipientSummary(current: Summary, recipients: seq<string>, status: Status) returns (next: Summary)
    ensures forall id :: next == Join(current, Contribution(Event(id, recipients, status)))
  {
    var keys := if recipients == [] then ["*"] else recipients;
    next := current;
    assert next == Join(current, Uniform(Elements(keys[..0]), status));
    for i := 0 to |keys|
      invariant next == Join(current, Uniform(Elements(keys[..i]), status))
    {
      var previous := if keys[i] in next then next[keys[i]] else Sending;
      RaiseOneKey(current, Elements(keys[..i]), keys[i], status);
      assert keys[..i + 1] == keys[..i] + [keys[i]];
      ElementsMore(keys[..i], keys[i]);
      if Rank(status) >= Rank(previous) { next := next[keys[i] := status]; }
    }
    assert keys[..|keys|] == keys;
    assert Keys(recipients) == Elements(keys);
  }

  lemma JoinIsCommutative(a: Summary, b: Summary)
    ensures Join(a, b) == Join(b, a)
  {
  }

  lemma JoinIsAssociative(a: Summary, b: Summary, c: Summary)
    ensures Join(a, Join(b, c)) == Join(Join(a, b), c)
  {
    var l, r := Join(a, Join(b, c)), Join(Join(a, b), c);
    assert l.Keys == r.Keys;
    RankIsInjective();
    forall k | k in l ensures l[k] == r[k] {}
  }

  /** The join is the least upper bound of the pointwise rank order. */
  lemma JoinIsLeastUpperBound(a: Summary, b: Summary, c: Summary)
    ensures Join(a, a) == a
    ensures Below(a, Join(a, b)) && Below(b, Join(a, b))
    ensures Below(a, c) && Below(b, c) ==> Below(Join(a, b), c)
  {
  }

  lemma RankIsInjective()
    ensures forall x: Status, y: Status :: Rank(x) == Rank(y) ==> x == y
  {
  }

  /** The statuses from the weakest to the strongest. */
  const LADDER: seq<Status> :=
    [Sending, Sent, DeliveryDelayed, Delivered, Opened, Clicked, Failed, Suppressed, Bounced, Complained]

  /** Later steps of the ladder prevail; and a failure prevails over everything that is none. */
  lemma RankIsPosition(a: Status, b: Status)
    ensures exists i :: 0 <= i < |LADDER| && LADDER[i] == a
    ensures forall i, j :: 0 <= i < j < |LADDER| ==> Rank(LADDER[i]) < Rank(LADDER[j])
    ensures Negative(a) && !Negative(b) ==> Higher(a, b) == Higher(b, a) == a
  {
    assert LADDER[Rank(a)] == a;
  }

  predicate Says(e: Event, k: string) { k in Keys(e.recipients) }

  /** `m` gives every key the highest-ranked status that some event of the list says about it. */
  ghost predicate IsMaximumOf(m: Summary, events: seq<Event>) {
    && (forall e, k :: e in events && Says(e, k) ==> k in m && Rank(e.status) <= Rank(m[k]))
    && (forall k :: k in m ==> exists e :: e in events && Says(e, k) && e.status == m[k])
  }

  /** JoinAll, read pointwise: the keys are those of some event, and the value is the highest-ranked status any event gave. */
  lemma {:induction false} JoinAllIsMaximum(events: seq<Event>)
    ensures IsMaximumOf(JoinAll(events), events)
  {
    if events != [] {
      var rest, last := events[..|events| - 1], events[|events| - 1];
      JoinAllIsMaximum(rest);
      assert forall e :: e in events <==> e in rest || e == last;
      var m, m' := JoinAll(rest), JoinAll(events);
      forall k | k in m' ensures exists e :: e in events && Says(e, k) && e.status == m'[k] {
        if k in m && m'[k] == m[k] {
          var e :| e in rest && Says(e, k) && e.status == m[k];
        } else {
          assert Says(last, k) && last.status == m'[k];
        }
      }
    }
  }

  /** More events say at least as much. */
  lemma MoreEventsSayMore(a: seq<Event>, b: seq<Event>)
    requires forall e :: e in a ==> e in b
    ensures Below(JoinAll(a), JoinAll(b))
  {
    JoinAllIsMaximum(a);
    JoinAllIsMaximum(b);
    forall k | k in JoinAll(a) ensures k in JoinAll(b) && Rank(JoinAll(a)[k]) <= Rank(JoinAll(b)[k]) {
      var e :| e in a && Says(e, k) && e.status == JoinAll(a)[k];
      assert e in b;
    }
  }

  lemma BelowIsAntisymmetric(a: Summary, b: Summary)
    requires Below(a, b) && Below(b, a)
    ensures a == b
  {
  }

  /** Neither the order nor the multiplicity of the events matters. */
  lemma SameEventsSameSummary(a: seq<Event>, b: seq<Event>)
    requires forall e :: e in a <==> e in b
    ensures JoinAll(a) == JoinAll(b)
  {
    MoreEventsSayMore(a, b);
    MoreEventsSayMore(b, a);
    BelowIsAntisymmetric(JoinAll(a), JoinAll(b));
  }

  // ---------------------------------------------------------------- the aggregate

  /** The message status that a set of recipient statuses amounts to. */
  function AggregateOf(values: set<Status>): MessageStatus {
    var negative := exists v :: v in values && Negative(v);
    var nonNegative := exists v :: v in values && !Negative(v);
    if negative && nonNegative then PartiallyFailed
    else if negative then
      Of(if Complained in values then Complained
         else if Bounced in values then Bounced
         else if Suppressed in values then Suppressed
         else Failed)
    else Of(Best(values))
  }

  /** The furthest a delivery without failures got, and at least 'sent'. */
  function Best(values: set<Status>): Status {
    if Clicked in values then Clicked
    else if Opened in values then Opened
    else if Delivered in values then Delivered
    else if DeliveryDelayed in values then DeliveryDelayed
    else Sent
  }

  function Aggregate(summary: Summary): MessageStatus { AggregateOf(summary.Values) }

  /** The source's computation over Object.values(summary), in whatever order the object lists them. */
  method AggregateDeliveryStatus(values: seq<Status>) returns (r: MessageStatus)
    ensures r == AggregateOf(set v | v in values)
  {
    if |values| == 0 { return Of(Sent); }
    var hasNegative := exists v :: v in values && Negative(v);
    var hasNonNegative := exists v :: v in values && !Negative(v);
    if hasNegative && hasNonNegative { return PartiallyFailed; }
    if hasNegative {
      if Complained in values { return Of(Complained); }
      if Bounced in values { return Of(Bounced); }
      if Suppressed in values { return Of(Suppressed); }
      return Of(Failed);
    }
    var best := Sent;
    for i := 0 to |values|
      invariant best == Best(set v | v in values[..i])
    {
      assert values[..i + 1] == values[..i] + [values[i]];
      assert values[i] in values && !Negative(values[i]);
      if Rank(values[i]) > Rank(best) { best := values[i]; }
    }
    assert values[..|values|] == values;
    return Of(best);
  }

  predicate AnyNegative(summary: Summary) { exists k :: k in summary && Negative(summary[k]) }

  /** The negative statuses and partially_failed. */
  predicate Bad(st: MessageStatus) { st.PartiallyFailed? || (st.Of? && Negative(st.st)) }

  lemma BadIffAnyNegative(summary: Summary)
    ensures Bad(Aggregate(summary)) <==> AnyNegative(summary)
  {
  }

  /** Best is the rank-maximum of the non-negative statuses, with 'sent' as the floor. */
  lemma BestIsMaximum(values: set<Status>)
    ensures Best(values) == Sent || Best(values) in values
    ensures forall v :: v in values && !Negative(v) ==> Rank(v) <= Rank(Best(values))
  {
  }

  /** If every recipient has failed, the aggregate is the strongest of the failures. */
  lemma WorstFailureWins(summary: Summary)
    requires summary != map[] && forall k :: k in summary ==> Negative(summary[k])
    ensures var st := Aggregate(summary);
            st.Of? && st.st in summary.Values && forall k :: k in summary ==> Rank(summary[k]) <= Rank(st.st)
  {
    forall k | k in summary ensures summary[k] in summary.Values {}
    var k :| k in summary;
    forall v | v in summary.Values ensures Negative(v) { var k' :| k' in summary && summary[k'] == v; }
  }

  /** While no recipient has failed, more events never lower the aggregate. */
  lemma AggregateIsMonotone(a: Summary, b: Summary)
    requires Below(a, b) && !AnyNegative(b)
    ensures Aggregate(a).Of? && Aggregate(b).Of? && Rank(Aggregate(a).st) <= Rank(Aggregate(b).st)
  {
    forall v | v in b.Values ensures !Negative(v) { var k :| k in b && b[k] == v; }
    forall v | v in a.Values ensures !Negative(v) && Rank(v) <= Rank(Best(b.Values)) {
      var k :| k in a && a[k] == v;
      assert b[k] in b.Values;
      BestIsMaximum(b.Values);
    }
    BestIsMaximum(a.Values);
    BestIsMaximum(b.Values);
  }

  lemma NegativeStaysNegative(a: Summary, b: Summary)
    requires Below(a, b) && AnyNegative(a)
    ensures AnyNegative(b)
  {
  }

  // ---------------------------------------------------------------- the protocol

  const MAX_SWAPS: nat := 8

  datatype Phase =
    | Checking                          // the duplicate SELECT is next
    | Correlating
    | Reading                           // the summary SELECT is next
    | Swapping(seen: Summary)           // the conditional UPDATE is next
    | Recording(correlated: bool)       // the INSERT OR IGNORE is next
    | Finished

  datatype Worker = Worker(event: Event, phase: Phase, swaps: nat)

  /** A row of mail_delivery_events; `recorder` is the worker that inserted it. */
  datatype Recorded = Recorded(event: Event, correlated: bool, recorder: nat)

  /** One outgoing message, the event table, the workers, the workers whose lookup found the message, and a log of the
      swaps that succeeded. */
  datatype State = State(
    status: MessageStatus,
    summary: Summary,
    table: map<nat, Recorded>,
    workers: map<nat, Worker>,
    found: set<nat>,
    committed: seq<Event>)

  datatype Action =
    | Deliver(w: nat, event: Event)
    | Check(w: nat)
    | Correlate(w: nat, found: bool)
    | Read(w: nat)
    | Swap(w: nat)
    | SwapMissed(w: nat)                   // equal summaries may be stored as different texts
    | Record(w: nat)
    | Die(w: nat)
    | GuardedWrite(st: MessageStatus)      // the provider outcome writes and the retry's 'sending' write
    | SentWrite                            // the final write of a send or retry
    | UnguardedWrite(st: MessageStatus)    // the four writes that do not look at the old status

  predicate Retryable(st: MessageStatus) { st == Of(Sending) || st == RetryableFailed }

  /** The statuses the send side writes by those statements. */
  predicate SendSide(st: MessageStatus) { Retryable(st) || st == Of(Failed) }

  function Init(): State { State(Of(Sending), map[], map[], map[], {}, []) }

  function To(s: State, w: nat, phase: Phase): State
    requires w in s.workers
  {
    s.(workers := s.workers[w := s.workers[w].(phase := phase)])
  }

  function MissStep(s: State, w: nat): State
    requires w in s.workers
  {
    var wk := s.workers[w];
    s.(workers := s.workers[w := Worker(wk.event, if wk.swaps + 1 == MAX_SWAPS then Finished else Reading, wk.swaps + 1)])
  }

  function SwapStep(s: State, w: nat): State
    requires w in s.workers && s.workers[w].phase.Swapping?
  {
    var Worker(e, Swapping(seen), _) := s.workers[w];
    if s.summary != seen then MissStep(s, w)
    else
      var next := Join(seen, Contribution(e));
      To(s.(summary := next, status := Aggregate(next), committed := s.committed + [e]), w, Recording(true))
  }

  function RecordStep(s: State, w: nat): State
    requires w in s.workers && s.workers[w].phase.Recording?
  {
    var Worker(e, Recording(correlated), _) := s.workers[w];
    var s1 := if e.id in s.table then s else s.(table := s.table[e.id := Recorded(e, correlated, w)]);
    To(s1, w, Finished)
  }

  function Step(s: State, a: Action): State {
    match a
    case Deliver(w, e) => if w in s.workers then s else s.(workers := s.workers[w := Worker(e, Checking, 0)])
    case Check(w) =>
      if w !in s.workers || !s.workers[w].phase.Checking? then s
      else To(s, w, if s.workers[w].event.id in s.table then Finished else Correlating)
    case Correlate(w, found) =>
      if w !in s.workers || !s.workers[w].phase.Correlating? then s
      else To(s.(found := if found then s.found + {w} else s.found), w, if found then Reading else Recording(false))
    case Read(w) =>
      if w !in s.workers || !s.workers[w].phase.Reading? then s else To(s, w, Swapping(s.summary))
    case Swap(w) =>
      if w !in s.workers || !s.workers[w].phase.Swapping? then s else SwapStep(s, w)
    case SwapMissed(w) =>
      if w !in s.workers || !s.workers[w].phase.Swapping? then s else MissStep(s, w)
    case Record(w) =>
      if w !in s.workers || !s.workers[w].phase.Recording? then s else RecordStep(s, w)
    case Die(w) => if w !in s.workers then s else To(s, w, Finished)
    case GuardedWrite(st) => if SendSide(st) && Retryable(s.status) then s.(status := st) else s
    case SentWrite => if Retryable(s.status) then s.(status := Of(Sent)) else s
    case UnguardedWrite(st) => if SendSide(st) then s.(status := st) else s
  }

  function Run(s: State, acts: seq<Action>): State
    decreases |acts|
  {
    if acts == [] then s else Run(Step(s, acts[0]), acts[1..])
  }

  predicate Inv(s: State) {
    && s.summary == JoinAll(s.committed)
    && (forall w :: w in s.workers && s.workers[w].phase == Recording(true) ==> s.workers[w].event in s.committed)
    && (forall id :: id in s.table && s.table[id].correlated ==> s.table[id].event in s.committed)
  }

  lemma SwapKeepsInv(s: State, w: nat)
    requires Inv(s) && w in s.workers && s.workers[w].phase.Swapping?
    ensures Inv(SwapStep(s, w)) && s.committed <= SwapStep(s, w).committed
  {
    var s', e := SwapStep(s, w), s.workers[w].event;
    if s.summary == s.workers[w].phase.seen {
      assert s'.committed[..|s.committed|] == s.committed && e in s'.committed;
    }
  }

  lemma RecordKeepsInv(s: State, w: nat)
    requires Inv(s) && w in s.workers && s.workers[w].phase.Recording?
    ensures Inv(RecordStep(s, w)) && RecordStep(s, w).committed == s.committed
  {
  }

  lemma MoveKeepsInv(s: State, w: nat, phase: Phase)
    requires Inv(s) && w in s.workers && phase != Recording(true)
    ensures Inv(To(s, w, phase)) && To(s, w, phase).committed == s.committed
  {
  }

  lemma DeliverKeepsInv(s: State, w: nat, e: Event)
    requires Inv(s) && w !in s.workers
    ensures Inv(s.(workers := s.workers[w := Worker(e, Checking, 0)]))
  {
  }

  lemma MissKeepsInv(s: State, w: nat)
    requires Inv(s) && w in s.workers
    ensures Inv(MissStep(s, w)) && MissStep(s, w).committed == s.committed
  {
  }

  lemma ReadingKeepsInv(s: State, a: Action)
    requires Inv(s) && (a.Check? || a.Correlate? || a.Read?)
    ensures Inv(Step(s, a)) && Step(s, a).committed == s.committed
  {
    if a.w in s.workers {
      MoveKeepsInv(s, a.w, Finished);
      MoveKeepsInv(s, a.w, Correlating);
      MoveKeepsInv(s, a.w, Reading);
      MoveKeepsInv(s, a.w, Recording(false));
      MoveKeepsInv(s, a.w, Swapping(s.summary));
    }
  }

  lemma StepKeepsInv(s: State, a: Action)
    requires Inv(s)
    ensures Inv(Step(s, a)) && s.committed <= Step(s, a).committed
  {
    match a
    case Deliver(w, e) => if w !in s.workers { DeliverKeepsInv(s, w, e); }
    case SwapMissed(w) => if w in s.workers { MissKeepsInv(s, w); }
    case Check(_) => ReadingKeepsInv(s, a);
    case Correlate(_, _) => ReadingKeepsInv(s, a);
    case Read(_) => ReadingKeepsInv(s, a);
    case Swap(w) => if w in s.workers && s.workers[w].phase.Swapping? { SwapKeepsInv(s, w); }
    case Record(w) => if w in s.workers && s.workers[w].phase.Recording? { RecordKeepsInv(s, w); }
    case Die(w) => if w in s.workers { MoveKeepsInv(s, w, Finished); }
    case _ =>
  }

  lemma {:induction false} RunKeepsInv(s: State, acts: seq<Action>)
    requires Inv(s)
    ensures Inv(Run(s, acts)) && s.committed <= Run(s, acts).committed
    decreases |acts|
  {
    if acts != [] {
      StepKeepsInv(s, acts[0]);
      RunKeepsInv(Step(s, acts[0]), acts[1..]);
    }
  }

  /** A worker merges if its lookup found the message, and it records which of the two it did. */
  predicate WorkerOk(s: State, w: nat)
    requires w in s.workers
  {
    match s.workers[w].phase
    case Checking => w !in s.found
    case Correlating => w !in s.found
    case Reading => w in s.found
    case Swapping(_) => w in s.found
    case Recording(correlated) => correlated == (w in s.found)
    case Finished => true
  }

  predicate EntryOk(s: State, id: nat)
    requires id in s.table
  {
    var w := s.table[id].recorder;
    && w in s.workers && s.workers[w].phase.Finished? && s.workers[w].event == s.table[id].event && s.table[id].event.id == id
    && s.table[id].correlated == (w in s.found)
  }

  predicate Honest(s: State) {
    && s.found <= s.workers.Keys
    && (forall w :: w in s.workers ==> WorkerOk(s, w))
    && (forall id :: id in s.table ==> EntryOk(s, id))
  }

  /** One worker that has not finished moves on. */
  lemma MoveKeepsHonest(s: State, s': State, w: nat)
    requires Honest(s) && s'.table == s.table && w in s.workers && !s.workers[w].phase.Finished?
    requires w in s'.workers && s'.workers == s.workers[w := s'.workers[w]] && s'.workers[w].event == s.workers[w].event
    requires s'.found - {w} == s.found - {w} && WorkerOk(s', w)
    ensures Honest(s')
  {
    forall v | v in s'.workers ensures WorkerOk(s', v) { if v != w { assert WorkerOk(s, v) && (v in s'.found - {w} <==> v in s.found - {w}); } }
    forall id | id in s'.table ensures EntryOk(s', id) {
      assert EntryOk(s, id) && (s.table[id].recorder in s'.found - {w} <==> s.table[id].recorder in s.found - {w});
    }
    assert s'.found <= (s'.found - {w}) + {w};
  }

  lemma RecordKeepsHonest(s: State, w: nat)
    requires Honest(s) && w in s.workers && s.workers[w].phase.Recording?
    ensures Honest(RecordStep(s, w))
  {
    assert WorkerOk(s, w);
    MoveKeepsHonest(s, To(s, w, Finished), w);
  }

  lemma DeliverKeepsHonest(s: State, w: nat, e: Event)
    requires Honest(s) && w !in s.workers
    ensures Honest(s.(workers := s.workers[w := Worker(e, Checking, 0)]))
  {
    var s' := s.(workers := s.workers[w := Worker(e, Checking, 0)]);
    forall v | v in s'.workers ensures WorkerOk(s', v) { if v != w { assert WorkerOk(s, v); } }
    forall id | id in s'.table ensures EntryOk(s', id) { assert EntryOk(s, id); }
  }

  lemma DieKeepsHonest(s: State, w: nat)
    requires Honest(s) && w in s.workers
    ensures Honest(To(s, w, Finished))
  {
    if s.workers[w].phase.Finished? { assert To(s, w, Finished) == s; } else { MoveKeepsHonest(s, To(s, w, Finished), w); }
  }

  lemma SwapKeepsHonest(s: State, w: nat)
    requires Honest(s) && w in s.workers && s.workers[w].phase.Swapping?
    ensures Honest(SwapStep(s, w)) && Honest(MissStep(s, w))
  {
    assert WorkerOk(s, w);
    MoveKeepsHonest(s, SwapStep(s, w), w);
    MoveKeepsHonest(s, MissStep(s, w), w);
  }

  lemma LookupKeepsHonest(s: State, a: Action)
    requires Honest(s) && (a.Check? || a.Correlate? || a.Read?)
    ensures Honest(Step(s, a))
  {
    var s' := Step(s, a);
    if s' != s {
      assert WorkerOk(s, a.w);
      MoveKeepsHonest(s, s', a.w);
    }
  }

  lemma StepKeepsHonest(s: State, a: Action)
    requires Honest(s)
    ensures Honest(Step(s, a))
  {
    match a
    case Deliver(w, e) => if w !in s.workers { DeliverKeepsHonest(s, w, e); }
    case Check(_) => LookupKeepsHonest(s, a);
    case Correlate(_, _) => LookupKeepsHonest(s, a);
    case Read(_) => LookupKeepsHonest(s, a);
    case Swap(w) => if w in s.workers && s.workers[w].phase.Swapping? { SwapKeepsHonest(s, w); }
    case SwapMissed(w) => if w in s.workers && s.workers[w].phase.Swapping? { SwapKeepsHonest(s, w); }
    case Record(w) => if w in s.workers && s.workers[w].phase.Recording? { RecordKeepsHonest(s, w); }
    case Die(w) => if w in s.workers { DieKeepsHonest(s, w); }
    case _ => StatusKeepsHonest(s, Step(s, a).status);
  }

  lemma StatusKeepsHonest(s: State, st: MessageStatus)
    requires Honest(s)
    ensures Honest(s.(status := st))
  {
    var s' := s.(status := st);
    forall v | v in s'.workers ensures WorkerOk(s', v) { assert WorkerOk(s, v); }
    forall id | id in s'.table ensures EntryOk(s', id) { assert EntryOk(s, id); }
  }

  lemma {:induction false} RunKeepsHonest(s: State, acts: seq<Action>)
    requires Honest(s)
    ensures Honest(Run(s, acts))
    decreases |acts|
  {
    if acts != [] {
      StepKeepsHonest(s, acts[0]);
      RunKeepsHonest(Step(s, acts[0]), acts[1..]);
    }
  }

  /** No update is lost, in any interleaving with any crashes and redeliveries: the summary is the rank-maximum of
      exactly the events whose swap succeeded; a recorded event is one of them if and only if the worker that recorded it
      was told that the message is known; and then what it says is in the summary. */
  lemma NoUpdateIsLost(acts: seq<Action>)
    ensures var s := Run(Init(), acts);
            && IsMaximumOf(s.summary, s.committed)
            && (forall id :: id in s.table ==> s.table[id].event.id == id && (s.table[id].correlated <==> s.table[id].recorder in s.found))
            && (forall id :: id in s.table && s.table[id].recorder in s.found ==> s.table[id].event in s.committed)
            && (forall id, k :: id in s.table && s.table[id].recorder in s.found && Says(s.table[id].event, k) ==>
                  k in s.summary && Rank(s.table[id].event.status) <= Rank(s.summary[k]))
  {
    var s := Run(Init(), acts);
    RunKeepsInv(Init(), acts);
    RunKeepsHonest(Init(), acts);
    forall id | id in s.table ensures EntryOk(s, id) {}
    JoinAllIsMaximum(s.committed);
  }

  // ---------------------------------------------------------------- a worker that is not disturbed

  lemma RunOne(s: State, a: Action)
    ensures Run(s, [a]) == Step(s, a)
  {
    assert Run(Step(s, a), []) == Step(s, a);
  }

  lemma RunTwo(s: State, a: Action, b: Action)
    ensures Run(s, [a, b]) == Step(Step(s, a), b)
  {
    RunOne(Step(s, a), b);
    assert [a, b][1..] == [b];
  }

  lemma {:induction false} RunAppend(s: State, a: seq<Action>, b: seq<Action>)
    ensures Run(s, a + b) == Run(Run(s, a), b)
    decreases |a|
  {
    if a == [] {
      assert a + b == b;
    } else {
      assert (a + b)[1..] == a[1..] + b;
      RunAppend(Step(s, a[0]), a[1..], b);
    }
  }

  predicate IsFinished(s: State, w: nat) { w in s.workers && s.workers[w].phase.Finished? }

  /** What the event says about its recipients is in the new summary, except where the old one says more. */
  predicate SummaryWith(before: Summary, e: Event, after: Summary) {
    && after.Keys == before.Keys + Keys(e.recipients)
    && (forall k :: k in after ==>
          after[k] == if !Says(e, k) || (k in before && Rank(before[k]) > Rank(e.status)) then before[k] else e.status)
  }

  lemma JoinIsWith(summary: Summary, e: Event)
    ensures SummaryWith(summary, e, Join(summary, Contribution(e)))
  {
    RankIsInjective();
  }

  /** The event has been merged, its status has been drawn from the summary, and it has been recorded as correlated. */
  predicate Merged(s: State, s': State, w: nat, e: Event) {
    && IsFinished(s', w)
    && SummaryWith(s.summary, e, s'.summary)
    && s'.status == Aggregate(s'.summary) && s'.committed == s.committed + [e]
    && s'.table == if e.id in s.table then s.table else s.table[e.id := Recorded(e, true, w)]
  }

  lemma SwapMerges(s: State, w: nat)
    requires w in s.workers && s.workers[w].phase == Swapping(s.summary)
    ensures Merged(s, Run(s, [Swap(w), Record(w)]), w, s.workers[w].event)
  {
    var next := Join(s.summary, Contribution(s.workers[w].event));
    JoinIsWith(s.summary, s.workers[w].event);
    RunTwo(s, Swap(w), Record(w));
    assert Step(s, Swap(w)).summary == next;
  }

  /** From every reachable state: a new event about a known message, handled without interruption. */
  lemma NewEventIsMerged(acts: seq<Action>, w: nat, e: Event)
    requires var s := Run(Init(), acts); w !in s.workers && e.id !in s.table
    ensures var s := Run(Init(), acts);
            var s' := Run(s, [Deliver(w, e), Check(w)] + [Correlate(w, true), Read(w)] + [Swap(w), Record(w)]);
            Merged(s, s', w, e) && e.id in s'.table && s'.table[e.id].correlated
  {
    var s := Run(Init(), acts);
    var s1 := s.(workers := s.workers[w := Worker(e, Correlating, 0)]);
    var s2 := s.(workers := s.workers[w := Worker(e, Swapping(s.summary), 0)], found := s.found + {w});
    EventIsLookedUp(s, w, e);
    MessageIsFound(s1, w);
    RunAppend(s, [Deliver(w, e), Check(w)], [Correlate(w, true), Read(w)]);
    RunAppend(s, [Deliver(w, e), Check(w)] + [Correlate(w, true), Read(w)], [Swap(w), Record(w)]);
    assert s1.workers[w := Worker(e, Swapping(s.summary), 0)] == s2.workers;
    SwapMerges(s2, w);
  }

  lemma EventIsLookedUp(s: State, w: nat, e: Event)
    requires w !in s.workers
    ensures Run(s, [Deliver(w, e), Check(w)])
            == s.(workers := s.workers[w := Worker(e, if e.id in s.table then Finished else Correlating, 0)])
  {
    RunTwo(s, Deliver(w, e), Check(w));
  }

  lemma MessageIsFound(s: State, w: nat)
    requires w in s.workers && s.workers[w].phase.Correlating?
    ensures Run(s, [Correlate(w, true), Read(w)])
            == s.(workers := s.workers[w := s.workers[w].(phase := Swapping(s.summary))], found := s.found + {w})
  {
    RunTwo(s, Correlate(w, true), Read(w));
  }

  /** An event that has been recorded is not applied again. */
  lemma DuplicateIsIgnored(s: State, w: nat, e: Event)
    requires w !in s.workers && e.id in s.table
    ensures var s' := Run(s, [Deliver(w, e), Check(w)]); IsFinished(s', w) && s'.(workers := s.workers) == s
  {
    EventIsLookedUp(s, w, e);
  }

  /** An event about no known message is only recorded. */
  lemma UnknownEventIsRecorded(s: State, w: nat, e: Event)
    requires w !in s.workers && e.id !in s.table
    ensures var s' := Run(s, [Deliver(w, e), Check(w)] + [Correlate(w, false), Record(w)]);
            && IsFinished(s', w) && s'.table == s.table[e.id := Recorded(e, false, w)]
            && s'.summary == s.summary && s'.status == s.status && s'.found == s.found
  {
    EventIsLookedUp(s, w, e);
    var s1 := s.(workers := s.workers[w := Worker(e, Correlating, 0)]);
    RunAppend(s, [Deliver(w, e), Check(w)], [Correlate(w, false), Record(w)]);
    RunTwo(s1, Correlate(w, false), Record(w));
  }

  /** A worker whose swap comes too late. */
  predicate IsLate(s: State, w: nat) { w in s.workers && s.workers[w].phase.Swapping? && s.workers[w].phase.seen != s.summary }

  lemma LateSwapReadsAgain(s: State, w: nat)
    requires IsLate(s, w) && s.workers[w].swaps < 7
    ensures Run(s, [Swap(w), Read(w)])
            == s.(workers := s.workers[w := Worker(s.workers[w].event, Swapping(s.summary), s.workers[w].swaps + 1)])
  {
    var e, n := s.workers[w].event, s.workers[w].swaps;
    var s1 := s.(workers := s.workers[w := Worker(e, Reading, n + 1)]);
    RunTwo(s, Swap(w), Read(w));
    assert Step(s, Swap(w)) == s1;
    assert s1.workers[w := Worker(e, Swapping(s.summary), n + 1)] == s.workers[w := Worker(e, Swapping(s.summary), n + 1)];
  }

  lemma LastSwapGivesUp(s: State, w: nat)
    requires IsLate(s, w) && s.workers[w].swaps == 7
    ensures var s' := Run(s, [Swap(w)]); IsFinished(s', w) && s'.(workers := s.workers) == s
  {
    RunOne(s, Swap(w));
  }

  /** It tries again, eight times in all. */
  lemma LateSwapIsRetried(s: State, w: nat)
    requires IsLate(s, w) && s.workers[w].swaps < 8
    ensures s.workers[w].swaps < 7 ==> Merged(s, Run(s, [Swap(w), Read(w)] + [Swap(w), Record(w)]), w, s.workers[w].event)
    ensures s.workers[w].swaps == 7 ==> var s' := Run(s, [Swap(w)]); IsFinished(s', w) && s'.(workers := s.workers) == s
  {
    if s.workers[w].swaps < 7 {
      LateSwapReadsAgain(s, w);
      RunAppend(s, [Swap(w), Read(w)], [Swap(w), Record(w)]);
      SwapMerges(Run(s, [Swap(w), Read(w)]), w);
    } else {
      LastSwapGivesUp(s, w);
    }
  }

  // ---------------------------------------------------------------- the status of the message

  predicate StatusIsAggregate(s: State) { s.committed != [] ==> s.status == Aggregate(s.summary) }

  /** Every unguarded write lands while the status it was decided on still stands. */
  predicate Serialized(s: State, acts: seq<Action>)
    decreases |acts|
  {
    acts != [] ==> (acts[0].UnguardedWrite? ==> Retryable(s.status)) && Serialized(Step(s, acts[0]), acts[1..])
  }

  /** The provider's outcome, and 'sent' at the end, are written if and only if nothing has settled the status; so from the
      first commit on neither has any effect. */
  lemma GuardedWritesYield(s: State, st: MessageStatus)
    requires st in {Of(Sending), RetryableFailed, Of(Failed)}
    ensures s.status in {Of(Sending), RetryableFailed} ==>
              Step(s, GuardedWrite(st)).status == st && Step(s, SentWrite).status == Of(Sent)
    ensures s.status !in {Of(Sending), RetryableFailed} ==> Step(s, GuardedWrite(st)) == s == Step(s, SentWrite)
    ensures s.committed != [] && StatusIsAggregate(s) ==> s.status !in {Of(Sending), RetryableFailed}
    ensures Step(s, UnguardedWrite(st)) == s.(status := st)
  {
    AggregateIsNotRetryable(s.summary);
  }

  lemma AggregateIsNotRetryable(summary: Summary)
    ensures !Retryable(Aggregate(summary))
  {
  }

  lemma StepKeepsStatus(s: State, a: Action)
    requires StatusIsAggregate(s) && (a.UnguardedWrite? ==> Retryable(s.status))
    ensures StatusIsAggregate(Step(s, a))
  {
  }

  /** Once an event has committed, the status is the aggregate of the summary, across provider outcomes, final writes
      and retries, provided the unguarded writes are serialized with the reads they rest on. */
  lemma {:induction false} StatusTracksSummary(s: State, acts: seq<Action>)
    requires StatusIsAggregate(s) && Serialized(s, acts)
    ensures StatusIsAggregate(Run(s, acts))
    decreases |acts|
  {
    if acts != [] {
      StepKeepsStatus(s, acts[0]);
      StatusTracksSummary(Step(s, acts[0]), acts[1..]);
    }
  }

  /** Without that proviso: after an event has committed, an unguarded write keeps the status right if and only if it
      writes 'failed' on a message all of whose recipients failed. */
  lemma UnguardedWriteBreaksStatus(s: State, st: MessageStatus)
    requires s.committed != [] && SendSide(st)
    ensures StatusIsAggregate(Step(s, UnguardedWrite(st))) <==>
            st == Of(Failed) && s.summary != map[] && forall k :: k in s.summary ==> s.summary[k] == Failed
  {
    AggregateIsNotRetryable(s.summary);
    forall k | k in s.summary ensures s.summary[k] in s.summary.Values {}
    if Aggregate(s.summary) == Of(Failed) {
      forall k | k in s.summary ensures s.summary[k] == Failed {
        assert s.summary[k] in s.summary.Values;
      }
    }
    if s.summary != map[] {
      var k :| k in s.summary;
      assert s.summary[k] in s.summary.Values;
    }
  }

  /** Whatever has been written before, unguarded writes included: the next event to commit makes the status the aggregate
      of everything that has committed, and it stays so through any run in which unguarded writes are serialized again. */
  lemma CommitHealsStatus(before: seq<Action>, w: nat, after: seq<Action>)
    requires var s := Run(Init(), before); Step(s, Swap(w)).committed != s.committed
    requires Serialized(Step(Run(Init(), before), Swap(w)), after)
    ensures var s := Run(Step(Run(Init(), before), Swap(w)), after);
            s.committed != [] && s.status == Aggregate(s.summary) && IsMaximumOf(s.summary, s.committed)
  {
    var s, healed := Run(Init(), before), Step(Run(Init(), before), Swap(w));
    RunKeepsInv(Init(), before);
    StepKeepsInv(s, Swap(w));
    RunKeepsInv(healed, after);
    StatusTracksSummary(healed, after);
    JoinAllIsMaximum(Run(healed, after).committed);
  }

  /** From any point where an event has committed: while all recipients are non-negative the status never falls in rank,
      and once a recipient is negative the status stays negative or partially_failed. */
  lemma StatusOnlyAdvances(before: seq<Action>, after: seq<Action>)
    requires var s := Run(Init(), before);
             Serialized(Init(), before) && s.committed != [] && Serialized(s, after)
    ensures var s, s' := Run(Init(), before), Run(Run(Init(), before), after);
            && (!AnyNegative(s'.summary) ==> s.status.Of? && s'.status.Of? && Rank(s.status.st) <= Rank(s'.status.st))
            && (AnyNegative(s.summary) ==> Bad(s'.status))
  {
    var s := Run(Init(), before);
    var s' := Run(s, after);
    RunKeepsInv(Init(), before);
    RunKeepsInv(s, after);
    StatusTracksSummary(Init(), before);
    StatusTracksSummary(s, after);
    MoreEventsSayMore(s.committed, s'.committed);
    if !AnyNegative(s'.summary) { AggregateIsMonotone(s.summary, s'.summary); }
    if AnyNegative(s.summary) {
      NegativeStaysNegative(s.summary, s'.summary);
      BadIffAnyNegative(s'.summary);
    }
  }
}
