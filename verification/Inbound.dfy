/**
The inbound claim protocol: concurrent deliveries of the same or different mail write to D1
(message and thread rows) and R2 (raw objects), which share no transaction.  Every delivery
attempt owns a raw object key of its own; the message row is claimed by INSERT OR IGNORE, and
the losers undo what they did.
*/
module Inbound {

  /** A message row, reduced to its foreign key and its raw object key.  Keys are named after the attempt that made them. */
  datatype Message = Message(thread: string, rawKey: nat)

  datatype Phase =
    | Started                 // the thread placeholder is next
    | Placed                  // the R2 put is next
    | Stored                  // the message claim is next
    | Undoing                 // the R2 delete of the attempt's own object is next
    | Unplacing               // the conditional thread delete is next
    | Won                     // ensureThread is next
    | Ended(won: bool)

  datatype Attempt = Attempt(message: string, thread: string, phase: Phase)

  /** `lostObjects` and `lostThreads` name what a dead attempt or a failed delete has left behind; `misreported` the attempts
      whose claim committed but was reported as failed, and `erased` those that deleted their object. */
  datatype State = State(
    messages: map<string, Message>,
    threads: set<string>,
    objects: set<nat>,
    attempts: map<nat, Attempt>,
    lostObjects: set<nat>,
    lostThreads: set<string>,
    misreported: set<nat>,
    erased: set<nat>)

  datatype PutOutcome = PutOk | PutFailed | PutFailedButStored

  datatype Action =
    | Begin(a: nat, message: string, thread: string)
    | Place(a: nat)
    | Put(a: nat, outcome: PutOutcome)
    | Claim(a: nat)
    | ClaimThrows(a: nat, committed: bool)
    | RemoveObject(a: nat, ok: bool)
    | RemoveThread(a: nat, ok: bool)
    | Ensure(a: nat)
    | Die(a: nat)

  function Init(): State { State(map[], {}, {}, map[], {}, {}, {}, {}) }

  function To(s: State, a: nat, phase: Phase): State
    requires a in s.attempts
  {
    s.(attempts := s.attempts[a := s.attempts[a].(phase := phase)])
  }

  predicate At(s: State, a: nat, phase: Phase) { a in s.attempts && s.attempts[a].phase == phase }

  predicate HasMessage(s: State, thread: string) { exists m :: m in s.messages && s.messages[m].thread == thread }

  /** INSERT OR IGNORE into mail_messages: the primary key is ignored, the foreign key is not. */
  function InsertMessage(s: State, a: nat): State
    requires a in s.attempts
  {
    var at := s.attempts[a];
    if at.message in s.messages || at.thread !in s.threads then s
    else s.(messages := s.messages[at.message := Message(at.thread, a)])
  }

  function PutStep(s: State, a: nat, outcome: PutOutcome): State
    requires a in s.attempts
  {
    match outcome
    case PutOk => To(s.(objects := s.objects + {a}), a, Stored)
    case PutFailed => To(s, a, Unplacing)
    case PutFailedButStored => To(s.(objects := s.objects + {a}, lostObjects := s.lostObjects + {a}), a, Unplacing)
  }

  /** The row is there, but the attempt does not know. */
  function MisreportStep(s: State, a: nat): State
    requires a in s.attempts
  {
    To(InsertMessage(s, a).(misreported := s.misreported + {a}), a, Undoing)
  }

  /** A dead attempt leaves its object and its placeholder behind. */
  function DieStep(s: State, a: nat): State
    requires a in s.attempts
  {
    var ph, t := s.attempts[a].phase, s.attempts[a].thread;
    match ph
    case Started => To(s, a, Ended(false))
    case Placed => To(s.(lostThreads := s.lostThreads + {t}), a, Ended(false))
    case Stored => To(s.(lostObjects := s.lostObjects + {a}, lostThreads := s.lostThreads + {t}), a, Ended(false))
    case Undoing => To(s.(lostObjects := s.lostObjects + {a}, lostThreads := s.lostThreads + {t}), a, Ended(false))
    case Unplacing => To(s.(lostThreads := s.lostThreads + {t}), a, Ended(false))
    case Won => To(s, a, Ended(true))
    case Ended(_) => s
  }

  function Step(s: State, act: Action): State {
    match act
    case Begin(a, m, t) => if a in s.attempts then s else s.(attempts := s.attempts[a := Attempt(m, t, Started)])
    case Place(a) => if !At(s, a, Started) then s else To(s.(threads := s.threads + {s.attempts[a].thread}), a, Placed)
    case Put(a, outcome) => if !At(s, a, Placed) then s else PutStep(s, a, outcome)
    case Claim(a) =>
      if !At(s, a, Stored) then s
      else var s1 := InsertMessage(s, a); To(s1, a, if s1 == s then Undoing else Won)
    case ClaimThrows(a, committed) =>
      if !At(s, a, Stored) then s
      else if committed && InsertMessage(s, a) != s then MisreportStep(s, a)
      else To(s, a, Undoing)
    case RemoveObject(a, ok) =>
      if !At(s, a, Undoing) then s
      else To(if ok then s.(objects := s.objects - {a}, erased := s.erased + {a}) else s.(lostObjects := s.lostObjects + {a}), a, Unplacing)
    case RemoveThread(a, ok) =>
      if !At(s, a, Unplacing) then s
      else
        var t := s.attempts[a].thread;
        To(if !ok then s.(lostThreads := s.lostThreads + {t})
           else if HasMessage(s, t) then s else s.(threads := s.threads - {t}), a, Ended(false))
    case Ensure(a) => if !At(s, a, Won) then s else To(s.(threads := s.threads + {s.attempts[a].thread}), a, Ended(true))
    case Die(a) => if a !in s.attempts then s else DieStep(s, a)
  }

  function Run(s: State, acts: seq<Action>): State
    decreases |acts|
  {
    if acts == [] then s else Run(Step(s, acts[0]), acts[1..])
  }

  /** A statement that throws has not been committed. */
  predicate ThrownIsNotCommitted(acts: seq<Action>) {
    forall a :: a in acts ==> !(a.ClaimThrows? && a.committed)
  }

  // ---------------------------------------------------------------- the invariant

  predicate Winning(ph: Phase) { ph == Won || ph == Ended(true) }

  predicate Holding(ph: Phase) { ph == Stored || ph == Undoing }

  /** The attempt will still decide whether its thread stays. */
  predicate Watching(ph: Phase) { ph == Placed || ph == Stored || ph == Undoing || ph == Unplacing }

  predicate Winner(s: State, a: nat) { a in s.attempts && Winning(s.attempts[a].phase) }

  predicate Referenced(s: State, key: nat) { exists m :: m in s.messages && s.messages[m].rawKey == key }

  predicate Watched(s: State, thread: string) {
    exists a :: a in s.attempts && s.attempts[a].thread == thread && Watching(s.attempts[a].phase)
  }

  predicate Undone(ph: Phase) { ph == Undoing || ph == Unplacing || ph == Ended(false) }

  /** The row of a claimed message is the winner's, or that of an attempt that thinks it failed, and its thread exists. */
  predicate RowOk(s: State, m: string)
    requires m in s.messages
  {
    var row := s.messages[m];
    && row.thread in s.threads
    && (Winner(s, row.rawKey) || row.rawKey in s.misreported)
    && row.rawKey in s.attempts
    && s.attempts[row.rawKey].message == m
    && s.attempts[row.rawKey].thread == row.thread
  }

  predicate OwnsRow(s: State, a: nat)
    requires a in s.attempts
  {
    s.attempts[a].message in s.messages && s.messages[s.attempts[a].message].rawKey == a
  }

  predicate WinnerOk(s: State, a: nat)
    requires a in s.attempts
  {
    && (Winning(s.attempts[a].phase) ==> OwnsRow(s, a))
    && (a in s.misreported ==> OwnsRow(s, a) && Undone(s.attempts[a].phase) && (a in s.erased <==> a !in s.objects))
  }

  /** R2 holds a winner's object, the object of an attempt still at work, or one left behind, and these exclude each other. */
  predicate ObjectOk(s: State, key: nat) {
    && (key in s.objects <==> key in s.lostObjects || (key in s.attempts && (Winning(s.attempts[key].phase) || Holding(s.attempts[key].phase))))
    && (key in s.lostObjects + s.erased ==> key in s.attempts && s.attempts[key].phase in {Unplacing, Ended(false)})
  }

  predicate ThreadOk(s: State, t: string) { HasMessage(s, t) || Watched(s, t) || t in s.lostThreads }

  ghost predicate Inv(s: State) {
    && (forall m :: m in s.messages ==> RowOk(s, m))
    && (forall a :: a in s.attempts ==> WinnerOk(s, a))
    && (forall key :: ObjectOk(s, key))
    && (forall t :: t in s.threads ==> ThreadOk(s, t))
    && s.misreported <= s.attempts.Keys
  }

  /** One attempt moves on: it touches no object but its own and no thread but its own. */
  lemma AttemptMoves(s: State, s': State, a: nat)
    requires Inv(s) && a in s.attempts && s'.messages == s.messages
    requires a in s'.attempts && s'.attempts == s.attempts[a := s.attempts[a].(phase := s'.attempts[a].phase)]
    requires Winning(s.attempts[a].phase) == Winning(s'.attempts[a].phase)
    requires forall key :: key != a ==> (key in s'.objects <==> key in s.objects) && (key in s'.lostObjects <==> key in s.lostObjects)
    requires forall key :: key != a ==> (key in s'.erased <==> key in s.erased)
    requires s'.misreported == s.misreported && ObjectOk(s', a) && WinnerOk(s', a)
    requires s.lostThreads <= s'.lostThreads
    requires var t := s.attempts[a].thread;
             && (forall u :: u != t ==> (u in s'.threads <==> u in s.threads))
             && (HasMessage(s, t) ==> t in s'.threads)
             && (t in s'.threads ==> Watching(s'.attempts[a].phase) || HasMessage(s, t) || t in s'.lostThreads
                                     || (t in s.threads && !Watching(s.attempts[a].phase)))
    ensures Inv(s')
  {
    forall m | m in s'.messages ensures RowOk(s', m) {
      assert RowOk(s, m);
    }
    forall b | b in s'.attempts ensures WinnerOk(s', b) {
      assert WinnerOk(s, b) && ObjectOk(s, b);
    }
    forall key ensures ObjectOk(s', key) {
      assert ObjectOk(s, key);
    }
    forall t | t in s'.threads ensures ThreadOk(s', t) {
      if t == s.attempts[a].thread {
        if Watching(s'.attempts[a].phase) { assert Watched(s', t); }
        if HasMessage(s, t) { assert HasMessage(s', t); }
      }
      if t in s.threads && (t != s.attempts[a].thread || !Watching(s.attempts[a].phase)) {
        assert ThreadOk(s, t);
        if HasMessage(s, t) { assert HasMessage(s', t); }
        if Watched(s, t) {
          var b :| b in s.attempts && s.attempts[b].thread == t && Watching(s.attempts[b].phase);
          assert s'.attempts[b] == s.attempts[b];
        }
      }
    }
  }

  lemma BeginKeepsInv(s: State, a: nat, m: string, t: string)
    requires Inv(s) && a !in s.attempts
    ensures Inv(s.(attempts := s.attempts[a := Attempt(m, t, Started)]))
  {
    var s' := s.(attempts := s.attempts[a := Attempt(m, t, Started)]);
    forall m | m in s'.messages ensures RowOk(s', m) { assert RowOk(s, m); }
    forall b | b in s'.attempts ensures WinnerOk(s', b) { if b != a { assert WinnerOk(s, b); } }
    forall key ensures ObjectOk(s', key) { assert ObjectOk(s, key); }
    forall u | u in s'.threads ensures ThreadOk(s', u) {
      assert ThreadOk(s, u);
      if HasMessage(s, u) { assert HasMessage(s', u); }
      if Watched(s, u) {
        var b :| b in s.attempts && s.attempts[b].thread == u && Watching(s.attempts[b].phase);
        assert s'.attempts[b] == s.attempts[b];
      }
    }
  }

  /** The claim is won: the row, its thread (by the foreign key) and its object are all there. */
  lemma ClaimWonKeepsInv(s: State, a: nat)
    requires Inv(s) && At(s, a, Stored) && InsertMessage(s, a) != s
    ensures Inv(To(InsertMessage(s, a), a, Won))
  {
    var at := s.attempts[a];
    var s' := To(InsertMessage(s, a), a, Won);
    forall m | m in s'.messages ensures RowOk(s', m) { if m != at.message { assert RowOk(s, m); } }
    forall b | b in s'.attempts ensures WinnerOk(s', b) { assert WinnerOk(s, b); }
    forall key ensures ObjectOk(s', key) { assert ObjectOk(s, key); }
    forall t | t in s'.threads ensures ThreadOk(s', t) {
      assert ThreadOk(s, t);
      if t == at.thread {
        assert s'.messages[at.message].thread == t;
      } else if HasMessage(s, t) {
        var m :| m in s.messages && s.messages[m].thread == t;
        assert s'.messages[m].thread == t;
      } else if Watched(s, t) {
        var b :| b in s.attempts && s.attempts[b].thread == t && Watching(s.attempts[b].phase);
        assert s'.attempts[b] == s.attempts[b];
      }
    }
  }

  /** The same if the attempt does not learn of it. */
  lemma MisreportKeepsInv(s: State, a: nat)
    requires Inv(s) && At(s, a, Stored) && InsertMessage(s, a) != s
    ensures Inv(MisreportStep(s, a))
  {
    var at := s.attempts[a];
    var s' := MisreportStep(s, a);
    forall m | m in s'.messages ensures RowOk(s', m) { if m != at.message { assert RowOk(s, m); } }
    forall b | b in s'.attempts ensures WinnerOk(s', b) { assert WinnerOk(s, b) && ObjectOk(s, b); }
    forall key ensures ObjectOk(s', key) { assert ObjectOk(s, key); }
    forall t | t in s'.threads ensures ThreadOk(s', t) {
      assert ThreadOk(s, t);
      if t == at.thread {
        assert s'.messages[at.message].thread == t;
      } else if HasMessage(s, t) {
        var m :| m in s.messages && s.messages[m].thread == t;
        assert s'.messages[m].thread == t;
      } else if Watched(s, t) {
        var b :| b in s.attempts && s.attempts[b].thread == t && Watching(s.attempts[b].phase);
        assert s'.attempts[b] == s.attempts[b];
      }
    }
  }

  lemma OwnFacts(s: State, a: nat)
    requires Inv(s) && a in s.attempts
    ensures ObjectOk(s, a) && WinnerOk(s, a)
    ensures HasMessage(s, s.attempts[a].thread) ==> s.attempts[a].thread in s.threads
    ensures Winner(s, a) ==> s.attempts[a].thread in s.threads && HasMessage(s, s.attempts[a].thread)
    ensures var t := s.attempts[a].thread; t in s.threads ==> ThreadOk(s, t)
  {
  }

  lemma PlaceKeepsInv(s: State, a: nat)
    requires Inv(s)
    ensures Inv(Step(s, Place(a)))
  {
    if At(s, a, Started) { OwnFacts(s, a); AttemptMoves(s, Step(s, Place(a)), a); }
  }

  lemma PutKeepsInv(s: State, a: nat, outcome: PutOutcome)
    requires Inv(s)
    ensures Inv(Step(s, Put(a, outcome)))
  {
    if At(s, a, Placed) { OwnFacts(s, a); AttemptMoves(s, Step(s, Put(a, outcome)), a); }
  }

  lemma ClaimKeepsInv(s: State, a: nat)
    requires Inv(s)
    ensures Inv(Step(s, Claim(a))) && forall committed :: Inv(Step(s, ClaimThrows(a, committed)))
  {
    if At(s, a, Stored) {
      OwnFacts(s, a);
      AttemptMoves(s, To(s, a, Undoing), a);
      if InsertMessage(s, a) != s { ClaimWonKeepsInv(s, a); MisreportKeepsInv(s, a); }
    }
  }

  lemma RemoveObjectKeepsInv(s: State, a: nat, ok: bool)
    requires Inv(s)
    ensures Inv(Step(s, RemoveObject(a, ok)))
  {
    if At(s, a, Undoing) { OwnFacts(s, a); AttemptMoves(s, Step(s, RemoveObject(a, ok)), a); }
  }

  lemma RemoveThreadKeepsInv(s: State, a: nat, ok: bool)
    requires Inv(s)
    ensures Inv(Step(s, RemoveThread(a, ok)))
  {
    if At(s, a, Unplacing) { OwnFacts(s, a); AttemptMoves(s, Step(s, RemoveThread(a, ok)), a); }
  }

  lemma EnsureKeepsInv(s: State, a: nat)
    requires Inv(s)
    ensures Inv(Step(s, Ensure(a)))
  {
    if At(s, a, Won) { OwnFacts(s, a); AttemptMoves(s, Step(s, Ensure(a)), a); }
  }

  lemma DieKeepsInv(s: State, a: nat)
    requires Inv(s)
    ensures Inv(Step(s, Die(a)))
  {
    if a in s.attempts && !s.attempts[a].phase.Ended? { OwnFacts(s, a); AttemptMoves(s, DieStep(s, a), a); }
  }

  lemma StepKeepsInv(s: State, act: Action)
    requires Inv(s)
    ensures Inv(Step(s, act))
  {
    match act
    case Begin(a, m, t) => if a !in s.attempts { BeginKeepsInv(s, a, m, t); }
    case Place(a) => PlaceKeepsInv(s, a);
    case Put(a, outcome) => PutKeepsInv(s, a, outcome);
    case Claim(a) => ClaimKeepsInv(s, a);
    case ClaimThrows(a, _) => ClaimKeepsInv(s, a);
    case RemoveObject(a, ok) => RemoveObjectKeepsInv(s, a, ok);
    case RemoveThread(a, ok) => RemoveThreadKeepsInv(s, a, ok);
    case Ensure(a) => EnsureKeepsInv(s, a);
    case Die(a) => DieKeepsInv(s, a);
  }

  /** Rows are never taken back or changed. */
  lemma RowsPersist(s: State, act: Action)
    ensures forall m :: m in s.messages ==> m in Step(s, act).messages && Step(s, act).messages[m] == s.messages[m]
  {
  }

  lemma {:induction false} RunKeepsInv(s: State, acts: seq<Action>)
    requires Inv(s)
    ensures var s' := Run(s, acts);
            Inv(s') && forall m :: m in s.messages ==> m in s'.messages && s'.messages[m] == s.messages[m]
    decreases |acts|
  {
    if acts != [] {
      StepKeepsInv(s, acts[0]);
      RowsPersist(s, acts[0]);
      RunKeepsInv(Step(s, acts[0]), acts[1..]);
    }
  }

  /** Without a misreported claim there is none to record. */
  lemma {:induction false} NoneMisreported(s: State, acts: seq<Action>)
    requires ThrownIsNotCommitted(acts)
    ensures Run(s, acts).misreported == s.misreported
    decreases |acts|
  {
    if acts != [] { NoneMisreported(Step(s, acts[0]), acts[1..]); }
  }

  /** What the two sets record did happen. */
  lemma {:induction false} RecordedMeansDone(s: State, acts: seq<Action>, a: nat)
    ensures a in Run(s, acts).misreported && a !in s.misreported ==> ClaimThrows(a, true) in acts
    ensures a in Run(s, acts).erased && a !in s.erased ==> RemoveObject(a, true) in acts
    decreases |acts|
  {
    if acts != [] {
      RecordedMeansDone(Step(s, acts[0]), acts[1..], a);
      assert acts[0] in acts;
    }
  }

  // ---------------------------------------------------------------- the theorems

  /** The attempt has deleted the object that its own row names. */
  predicate LostMail(s: State, a: nat) { a in s.misreported && a in s.erased }

  /** In every interleaving, whatever fails or dies: a message's thread exists, the row belongs to at most one winning
      attempt for that message, no two rows share an object, and a row's object is gone if and only if the attempt that
      made the row was told that its claim had failed, and went on to delete its object. */
  lemma ArchiveIsConsistent(acts: seq<Action>)
    ensures var s := Run(Init(), acts);
            && (forall m :: m in s.messages ==>
                  s.messages[m].thread in s.threads && (s.messages[m].rawKey !in s.objects <==> LostMail(s, s.messages[m].rawKey)))
            && (ThrownIsNotCommitted(acts) ==> forall m :: m in s.messages ==> s.messages[m].rawKey in s.objects)
            && (forall a, b :: Winner(s, a) && Winner(s, b) && s.attempts[a].message == s.attempts[b].message ==> a == b)
            && (forall m, n :: m in s.messages && n in s.messages && s.messages[m].rawKey == s.messages[n].rawKey ==> m == n)
  {
    RunKeepsInv(Init(), acts);
    var s := Run(Init(), acts);
    forall m | m in s.messages ensures RowOk(s, m) && (s.messages[m].rawKey !in s.objects <==> LostMail(s, s.messages[m].rawKey)) {
      assert RowOk(s, m) && ObjectOk(s, s.messages[m].rawKey) && WinnerOk(s, s.messages[m].rawKey);
    }
    forall a | Winner(s, a) ensures WinnerOk(s, a) {}
    if ThrownIsNotCommitted(acts) { NoneMisreported(Init(), acts); }
  }

  /** In terms of what was done: only a claim that threw after it had committed, and then the delete, lose an object. */
  lemma LostMailWasMisreported(acts: seq<Action>, m: string)
    ensures var s := Run(Init(), acts);
            m in s.messages && s.messages[m].rawKey !in s.objects ==>
              ClaimThrows(s.messages[m].rawKey, true) in acts && RemoveObject(s.messages[m].rawKey, true) in acts
  {
    var s := Run(Init(), acts);
    if m in s.messages && s.messages[m].rawKey !in s.objects {
      ArchiveIsConsistent(acts);
      RecordedMeansDone(Init(), acts, s.messages[m].rawKey);
    }
  }

  /** Once a message has been claimed, nothing that any attempt does later removes its row, and nothing but its own attempt,
      if that was misinformed, its raw object. */
  lemma ClaimedMailStays(before: seq<Action>, after: seq<Action>)
    ensures var s, s' := Run(Init(), before), Run(Run(Init(), before), after);
            forall m :: m in s.messages ==>
              && m in s'.messages && s'.messages[m] == s.messages[m]
              && (s.messages[m].rawKey in s'.objects <==> !LostMail(s', s.messages[m].rawKey))
              && (ThrownIsNotCommitted(before) && ThrownIsNotCommitted(after) ==> s.messages[m].rawKey in s'.objects)
  {
    RunKeepsInv(Init(), before);
    var s := Run(Init(), before);
    RunKeepsInv(s, after);
    var s' := Run(s, after);
    forall m | m in s.messages ensures s.messages[m].rawKey in s'.objects <==> !LostMail(s', s.messages[m].rawKey) {
      assert RowOk(s', m) && ObjectOk(s', s'.messages[m].rawKey) && WinnerOk(s', s'.messages[m].rawKey);
    }
    if ThrownIsNotCommitted(before) && ThrownIsNotCommitted(after) { NoneMisreported(Init(), before); NoneMisreported(s, after); }
  }

  /** R2 is accounted for exactly: every object is named by a row that has not lost it, belongs to an attempt still at work,
      or was left behind. */
  lemma ObjectsAreAccountedFor(acts: seq<Action>, key: nat)
    ensures var s := Run(Init(), acts);
            key in s.objects <==> || (Referenced(s, key) && !LostMail(s, key))
                                  || (key in s.attempts && Holding(s.attempts[key].phase))
                                  || key in s.lostObjects
  {
    RunKeepsInv(Init(), acts);
    var s := Run(Init(), acts);
    assert ObjectOk(s, key);
    if key in s.attempts { assert WinnerOk(s, key); }
    if Referenced(s, key) {
      var m :| m in s.messages && s.messages[m].rawKey == key;
      assert RowOk(s, m);
    }
  }

  /** When everything has ended, nothing was left behind and no claim was misreported, the two stores agree exactly. */
  lemma QuietStateIsClean(acts: seq<Action>)
    requires var s := Run(Init(), acts);
             && (forall a :: a in s.attempts ==> s.attempts[a].phase.Ended?)
             && s.lostObjects == {} && s.lostThreads == {} && s.misreported == {}
    ensures var s := Run(Init(), acts);
            && (forall key :: key in s.objects <==> Referenced(s, key))
            && (forall t :: t in s.threads <==> HasMessage(s, t))
  {
    RunKeepsInv(Init(), acts);
    var s := Run(Init(), acts);
    forall key ensures key in s.objects <==> Referenced(s, key) { ObjectsAreAccountedFor(acts, key); }
    forall t ensures t in s.threads <==> HasMessage(s, t) {
      if t in s.threads { assert ThreadOk(s, t) && !Watched(s, t); }
      if HasMessage(s, t) {
        var m :| m in s.messages && s.messages[m].thread == t;
        assert RowOk(s, m);
      }
    }
  }

  /** One delivery, about to claim its message. */
  function StoredAlone(m: string, t: string): State {
    Init().(threads := {t}, objects := {0}, attempts := map[0 := Attempt(m, t, Stored)])
  }

  lemma StoredTrace(m: string, t: string)
    ensures Run(Init(), [Begin(0, m, t), Place(0), Put(0, PutOk)]) == StoredAlone(m, t)
  {
    var acts := [Begin(0, m, t), Place(0), Put(0, PutOk)];
    var s1 := Init().(attempts := map[0 := Attempt(m, t, Started)]);
    var s2 := s1.(threads := {t}, attempts := map[0 := Attempt(m, t, Placed)]);
    assert Step(Init(), acts[0]) == s1 && Step(s1, acts[1]) == s2 && Step(s2, acts[2]) == StoredAlone(m, t);
    assert acts[1..] == [acts[1], acts[2]] && acts[1..][1..] == [acts[2]];
    assert Run(s2, [acts[2]]) == Step(s2, acts[2]);
  }

  lemma {:induction false} RunAppend(s: State, a: seq<Action>, b: seq<Action>)
    ensures Run(s, a + b) == Run(Run(s, a), b)
    decreases |a|
  {
    if a == [] {
      assert a + b == b;
    } else {
      assert (a + b)[1..] == a[1..] + b;
      RunAppend(Step(s, a[0]), a[1..], b);
    }
  }

  /** Such runs exist: if the claim's INSERT commits but its answer is lost, the attempt deletes the object its own row
      names. */
  lemma LostClaimAnswerLosesMail(m: string, t: string)
    ensures exists acts :: var s := Run(Init(), acts); m in s.messages && s.messages[m].rawKey !in s.objects
  {
    var acts := [Begin(0, m, t), Place(0), Put(0, PutOk)] + [ClaimThrows(0, true), RemoveObject(0, true)];
    StoredTrace(m, t);
    RunAppend(Init(), [Begin(0, m, t), Place(0), Put(0, PutOk)], [ClaimThrows(0, true), RemoveObject(0, true)]);
    var s := StoredAlone(m, t);
    var s' := s.(messages := map[m := Message(t, 0)], attempts := map[0 := Attempt(m, t, Undoing)], misreported := {0});
    assert Step(s, ClaimThrows(0, true)) == s';
    assert [ClaimThrows(0, true), RemoveObject(0, true)][1..] == [RemoveObject(0, true)];
    assert Run(s', [RemoveObject(0, true)]) == Step(s', RemoveObject(0, true));
    assert m in Run(Init(), acts).messages;
  }

  // ---------------------------------------------------------------- mail is stored

  lemma RunOne(s: State, a: Action)
    ensures Run(s, [a]) == Step(s, a)
  {
    assert Run(Step(s, a), []) == Step(s, a);
  }

  lemma RunTwo(s: State, a: Action, b: Action)
    ensures Run(s, [a, b]) == Step(Step(s, a), b)
  {
    RunOne(Step(s, a), b);
    assert [a, b][1..] == [b];
  }

  lemma RunThree(s: State, a: Action, b: Action, c: Action)
    ensures Run(s, [a, b, c]) == Step(Step(Step(s, a), b), c)
  {
    RunTwo(Step(s, a), b, c);
    assert [a, b, c][1..] == [b, c];
  }

  /** A delivery attempt up to its claim. */
  function Storing(a: nat, m: string, t: string): seq<Action> { [Begin(a, m, t), Place(a), Put(a, PutOk)] }

  function StoredBy(s: State, a: nat, m: string, t: string): State {
    s.(threads := s.threads + {t}, objects := s.objects + {a}, attempts := s.attempts[a := Attempt(m, t, Stored)])
  }

  lemma AttemptStores(s: State, a: nat, m: string, t: string)
    requires a !in s.attempts
    ensures Run(s, Storing(a, m, t)) == StoredBy(s, a, m, t)
  {
    RunThree(s, Begin(a, m, t), Place(a), Put(a, PutOk));
    var s1 := s.(attempts := s.attempts[a := Attempt(m, t, Started)]);
    var s2 := s.(threads := s.threads + {t}, attempts := s.attempts[a := Attempt(m, t, Placed)]);
    assert s1.attempts[a := Attempt(m, t, Placed)] == s2.attempts;
    assert Step(s1, Place(a)) == s2;
    assert s2.attempts[a := Attempt(m, t, Stored)] == StoredBy(s, a, m, t).attempts;
  }

  lemma ClaimAndEnsure(s: State, a: nat)
    requires At(s, a, Stored) && s.attempts[a].message !in s.messages && s.attempts[a].thread in s.threads
    ensures var at := s.attempts[a];
            Run(s, [Claim(a), Ensure(a)])
            == s.(messages := s.messages[at.message := Message(at.thread, a)], attempts := s.attempts[a := at.(phase := Ended(true))],
                  threads := s.threads + {at.thread})
  {
    RunTwo(s, Claim(a), Ensure(a));
    var at := s.attempts[a];
    var s1 := s.(messages := s.messages[at.message := Message(at.thread, a)], attempts := s.attempts[a := at.(phase := Won)]);
    assert at.message in s1.messages && s1 != s;
    assert Step(s, Claim(a)) == s1;
    assert s1.attempts[a := at.(phase := Ended(true))] == s.attempts[a := at.(phase := Ended(true))];
  }

  /** From every reachable state: new mail whose delivery nothing disturbs is stored, as a row that names the attempt's own
      object, with that object in R2, and with its thread. */
  lemma NewMailIsStored(acts: seq<Action>, a: nat, m: string, t: string)
    requires var s := Run(Init(), acts); a !in s.attempts && m !in s.messages
    ensures var s := Run(Init(), acts);
            var s' := Run(s, Storing(a, m, t) + [Claim(a), Ensure(a)]);
            && s'.messages == s.messages[m := Message(t, a)] && s'.objects == s.objects + {a} && s'.threads == s.threads + {t}
            && At(s', a, Ended(true)) && a !in s.objects && a !in s'.misreported
  {
    var s := Run(Init(), acts);
    RunKeepsInv(Init(), acts);
    assert ObjectOk(s, a);
    AttemptStores(s, a, m, t);
    RunAppend(s, Storing(a, m, t), [Claim(a), Ensure(a)]);
    ClaimAndEnsure(StoredBy(s, a, m, t), a);
    assert s.threads + {t} + {t} == s.threads + {t};
  }

  lemma ClaimAndUndo(s: State, a: nat)
    requires At(s, a, Stored) && s.attempts[a].message in s.messages && HasMessage(s, s.attempts[a].thread)
    ensures var s' := Run(s, [Claim(a), RemoveObject(a, true), RemoveThread(a, true)]);
            && s'.messages == s.messages && s'.objects == s.objects - {a} && s'.threads == s.threads && At(s', a, Ended(false))
  {
    RunThree(s, Claim(a), RemoveObject(a, true), RemoveThread(a, true));
    var s2 := Step(Step(s, Claim(a)), RemoveObject(a, true));
    assert s2.messages == s.messages && At(s2, a, Unplacing);
  }

  /** A duplicate of stored mail, delivered undisturbed into the same thread, leaves rows, objects and threads as they were. */
  lemma DuplicateLeavesNoTrace(acts: seq<Action>, a: nat, m: string)
    requires var s := Run(Init(), acts); a !in s.attempts && m in s.messages
    ensures var s := Run(Init(), acts);
            var s' := Run(s, Storing(a, m, s.messages[m].thread) + [Claim(a), RemoveObject(a, true), RemoveThread(a, true)]);
            s'.messages == s.messages && s'.objects == s.objects && s'.threads == s.threads && At(s', a, Ended(false))
  {
    var s := Run(Init(), acts);
    var t := s.messages[m].thread;
    RunKeepsInv(Init(), acts);
    assert ObjectOk(s, a) && RowOk(s, m);
    AttemptStores(s, a, m, t);
    RunAppend(s, Storing(a, m, t), [Claim(a), RemoveObject(a, true), RemoveThread(a, true)]);
    assert HasMessage(StoredBy(s, a, m, t), t);
    ClaimAndUndo(StoredBy(s, a, m, t), a);
    assert s.objects + {a} - {a} == s.objects && s.threads + {t} == s.threads;
  }

  // ---------------------------------------------------------------- when a claim stores nothing

  /** In every run: after a claim that did not throw the mail has a row, now and for ever, if and only if it had one or its
      thread was still there; a new row is the attempt's own. */
  lemma ClaimStoresIff(before: seq<Action>, a: nat, after: seq<Action>)
    requires At(Run(Init(), before), a, Stored)
    ensures var s, m := Run(Init(), before), Run(Init(), before).attempts[a].message;
            var s', end := Step(s, Claim(a)), Run(Step(s, Claim(a)), after);
            && (m in s'.messages <==> m in s.messages || s.attempts[a].thread in s.threads)
            && (m in s'.messages ==> m in end.messages && end.messages[m] == s'.messages[m])
            && (m in s'.messages && m !in s.messages ==> s'.messages[m] == Message(s.attempts[a].thread, a) && a in s'.objects && Winner(s', a))
            && (m in s.messages ==> s'.messages == s.messages)
  {
    var s := Run(Init(), before);
    RunKeepsInv(Init(), before);
    StepKeepsInv(s, Claim(a));
    RunKeepsInv(Step(s, Claim(a)), after);
    assert ObjectOk(s, a);
    if s.attempts[a].message !in s.messages && s.attempts[a].thread in s.threads {
      assert InsertMessage(s, a).messages[s.attempts[a].message] == Message(s.attempts[a].thread, a);
      assert InsertMessage(s, a) != s;
    }
  }

  /** Somebody else has removed the thread's row. */
  predicate RemovedBy(s: State, acts: seq<Action>, t: string, b: nat) {
    RemoveThread(b, true) in acts && b in s.attempts && s.attempts[b].thread == t && s.attempts[b].phase.Ended?
  }

  /** An attempt that waits for its claim has placed its thread; if the row is gone, another attempt at the same thread has
      removed it. */
  ghost predicate PlacedOk(s: State, acts: seq<Action>) {
    forall a :: a in s.attempts && (s.attempts[a].phase.Placed? || s.attempts[a].phase.Stored?) ==>
      var t := s.attempts[a].thread; t in s.threads || exists b :: RemovedBy(s, acts, t, b)
  }

  lemma StepKeepsRemovals(s: State, acts: seq<Action>, act: Action, t: string, b: nat)
    requires RemovedBy(s, acts, t, b)
    ensures RemovedBy(Step(s, act), acts + [act], t, b)
  {
  }

  lemma StepKeepsPlaced(s: State, acts: seq<Action>, act: Action)
    requires PlacedOk(s, acts)
    ensures PlacedOk(Step(s, act), acts + [act])
  {
    var s' := Step(s, act);
    forall a | a in s'.attempts && (s'.attempts[a].phase.Placed? || s'.attempts[a].phase.Stored?)
      ensures var t := s'.attempts[a].thread; t in s'.threads || exists b :: RemovedBy(s', acts + [act], t, b)
    {
      var t := s'.attempts[a].thread;
      if t !in s'.threads {
        if t in s.threads {
          ThreadWasRemoved(s, act, t);
          assert RemovedBy(s', acts + [act], t, act.a);
        } else {
          assert a in s.attempts && s.attempts[a].thread == t;
          var b :| RemovedBy(s, acts, t, b);
          StepKeepsRemovals(s, acts, act, t, b);
        }
      }
    }
  }

  lemma ThreadWasRemoved(s: State, act: Action, t: string)
    requires t in s.threads && t !in Step(s, act).threads
    ensures act.RemoveThread? && act.ok && At(s, act.a, Unplacing) && s.attempts[act.a].thread == t && At(Step(s, act), act.a, Ended(false))
  {
  }

  lemma {:induction false} RunKeepsPlaced(s: State, done: seq<Action>, acts: seq<Action>)
    requires PlacedOk(s, done)
    ensures PlacedOk(Run(s, acts), done + acts)
    decreases |acts|
  {
    if acts == [] {
      assert done + acts == done;
    } else {
      StepKeepsPlaced(s, done, acts[0]);
      RunKeepsPlaced(Step(s, acts[0]), done + [acts[0]], acts[1..]);
      assert done + [acts[0]] + acts[1..] == done + acts;
    }
  }

  /** So a claim that does not throw fails to leave a row only if another attempt at the same thread has undone what this one
      had placed ... */
  lemma OnlyAnUndoPreventsStoring(before: seq<Action>, a: nat)
    requires At(Run(Init(), before), a, Stored)
    ensures var s := Run(Init(), before);
            s.attempts[a].message !in Step(s, Claim(a)).messages ==>
              exists b :: b != a && RemovedBy(s, before, s.attempts[a].thread, b)
  {
    ClaimStoresIff(before, a, []);
    RunKeepsPlaced(Init(), [], before);
    assert [] + before == before;
  }

  /** ... and that happens: of two deliveries of one mail, the first cannot store its object and removes the empty thread
      that the second has to refer to. */
  lemma UndoCanPreventStoring(m: string, t: string)
    ensures exists acts :: var s := Run(Init(), acts);
              At(s, 1, Stored) && s.attempts[1].message == m && m !in Step(s, Claim(1)).messages
  {
    var first, second := [Begin(0, m, t), Place(0)], [Put(0, PutFailed), RemoveThread(0, true)];
    var s0 := Init().(threads := {t}, attempts := map[0 := Attempt(m, t, Placed)]);
    RunTwo(Init(), Begin(0, m, t), Place(0));
    assert Run(Init(), first) == s0;
    AttemptStores(s0, 1, m, t);
    var s1 := StoredBy(s0, 1, m, t);
    RunTwo(s1, Put(0, PutFailed), RemoveThread(0, true));
    RunAppend(Init(), first, Storing(1, m, t));
    RunAppend(Init(), first + Storing(1, m, t), second);
    var s := Run(Init(), first + Storing(1, m, t) + second);
    assert At(s, 1, Stored) && s.attempts[1].message == m && t !in s.threads && m !in s.messages;
  }
}
