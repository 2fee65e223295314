/**
Journaled credential rotation: a local store, the Worker's secrets and a one-entry journal, with
crashes at every step and remote updates that fail with or without having been applied.
*/
module Credentials {
  import opened Options

  const AUTH_PEPPER := "AUTH_PEPPER"

  datatype Role = OperatorLocal | Runtime

  /** The credential schema: which keys exist, and whether the Worker gets them. */
  type Schema = map<string, Role>

  datatype Phase = Prepared | LocalWritten | RemoteWritten | Converged

  datatype Journal = Journal(key: string, phase: Phase)

  /** Where a command stands; the name says what has been done. */
  datatype Stage =
    | Checked                  // no recovery was pending, and the new value has been typed in
    | JournaledPrepared
    | SetLocally
    | JournaledLocal
    | PutRemotely
    | JournaledRemote
    | ComparedLocally
    | JournaledConverged
    | Loaded                   // recover: the journal and the local value have been read
    | Recovered                // recover: the Worker has been updated
    | Ended

  datatype Process = Process(key: string, value: string, stage: Stage)

  datatype State = State(
    local: map<string, string>,
    worker: map<string, string>,
    journal: Option<Journal>,
    processes: map<nat, Process>)

  datatype Action =
    | Rotate(p: nat, key: string, value: string)
    | Recover(p: nat)
    | Advance(p: nat, ok: bool, applied: bool)   // ok and applied matter to the remote update only
    | Kill(p: nat)

  function Get(m: map<string, string>, key: string): Option<string> { if key in m then Some(m[key]) else None }

  predicate Pending(j: Option<Journal>) { j.Some? && !j.value.phase.Converged? }

  function At(s: State, p: nat, stage: Stage): State
    requires p in s.processes
  {
    s.(processes := s.processes[p := s.processes[p].(stage := stage)])
  }

  function Journaled(s: State, key: string, phase: Phase): State { s.(journal := Some(Journal(key, phase))) }

  /** wrangler secret put: a failed call may have been applied all the same. */
  function Put(s: State, key: string, value: string, ok: bool, applied: bool): State {
    if ok || applied then s.(worker := s.worker[key := value]) else s
  }

  function StartRotate(c: Schema, s: State, p: nat, key: string, value: string): State {
    if p in s.processes || key == AUTH_PEPPER || key !in c || Pending(s.journal) || value == "" then s
    else s.(processes := s.processes[p := Process(key, value, Checked)])
  }

  function StartRecover(c: Schema, s: State, p: nat): State {
    if p in s.processes || !Pending(s.journal) || s.journal.value.key !in c then s
    else
      var key := s.journal.value.key;
      if c[key].OperatorLocal? || key !in s.local || s.local[key] == "" then s.(journal := None)
      else s.(processes := s.processes[p := Process(key, s.local[key], Loaded)])
  }

  /** What the next step of a command does to stores and journal ... */
  function Effect(c: Schema, s: State, q: Process, ok: bool, applied: bool): State {
    match q.stage
    case Checked => Journaled(s, q.key, Prepared)
    case JournaledPrepared => s.(local := s.local[q.key := q.value])
    case SetLocally => Journaled(s, q.key, LocalWritten)
    case JournaledLocal => if LocalOnly(c, q.key) then s.(journal := None) else Put(s, q.key, q.value, ok, applied)
    case PutRemotely => Journaled(s, q.key, RemoteWritten)
    case JournaledRemote => s
    case ComparedLocally => Journaled(s, q.key, Converged)
    case JournaledConverged => s.(journal := None)
    case Loaded => Put(s, q.key, q.value, ok, applied)
    case Recovered => s.(journal := None)
    case Ended => s
  }

  predicate LocalOnly(c: Schema, key: string) { key !in c || c[key].OperatorLocal? }

  /** ... and where the command stands after it. */
  function NextStage(c: Schema, s: State, q: Process, ok: bool): Stage {
    match q.stage
    case Checked => JournaledPrepared
    case JournaledPrepared => SetLocally
    case SetLocally => JournaledLocal
    case JournaledLocal => if ok && !LocalOnly(c, q.key) then PutRemotely else Ended
    case PutRemotely => JournaledRemote
    case JournaledRemote => if Get(s.local, q.key) == Some(q.value) then ComparedLocally else Ended
    case ComparedLocally => JournaledConverged
    case JournaledConverged => Ended
    case Loaded => if ok then Recovered else Ended
    case Recovered => Ended
    case Ended => Ended
  }

  function AdvanceStep(c: Schema, s: State, p: nat, ok: bool, applied: bool): State
    requires p in s.processes
  {
    var q := s.processes[p];
    At(Effect(c, s, q, ok, applied), p, NextStage(c, s, q, ok))
  }

  function Step(c: Schema, s: State, a: Action): State {
    match a
    case Rotate(p, key, value) => StartRotate(c, s, p, key, value)
    case Recover(p) => StartRecover(c, s, p)
    case Advance(p, ok, applied) => if p in s.processes then AdvanceStep(c, s, p, ok, applied) else s
    case Kill(p) => if p in s.processes then At(s, p, Ended) else s
  }

  function Run(c: Schema, s: State, acts: seq<Action>): State
    decreases |acts|
  {
    if acts == [] then s else Run(c, Step(c, s, acts[0]), acts[1..])
  }

  predicate Idle(s: State) { forall p :: p in s.processes ==> s.processes[p].stage.Ended? }

  /** A command starts only when no other is at work. */
  predicate OneAtATime(c: Schema, s: State, acts: seq<Action>)
    decreases |acts|
  {
    acts != [] ==> (acts[0].Rotate? || acts[0].Recover? ==> Idle(s)) && OneAtATime(c, Step(c, s, acts[0]), acts[1..])
  }

  // ---------------------------------------------------------------- the invariant

  predicate Equal(s: State, key: string) { Get(s.worker, key) == Get(s.local, key) }

  /** The Worker has the local value of every runtime key, except perhaps of one. */
  predicate EqualBut(c: Schema, s: State, except: Option<string>) {
    forall key :: key in c && c[key].Runtime? && except != Some(key) ==> Equal(s, key)
  }

  predicate AllEqual(c: Schema, s: State) { EqualBut(c, s, None) }

  function PendingKey(s: State): Option<string> { if Pending(s.journal) then Some(s.journal.value.key) else None }

  predicate IsPhase(s: State, key: string, phase: Phase) { s.journal == Some(Journal(key, phase)) }

  /** What the stage of the command at work says about journal and stores. */
  predicate StageOk(c: Schema, s: State, q: Process) {
    q.stage.Ended? ||
    (q.key in c && q.value != "" &&
     match q.stage
     case Checked => !Pending(s.journal)
     case JournaledPrepared => IsPhase(s, q.key, Prepared)
     case SetLocally => IsPhase(s, q.key, Prepared) && Get(s.local, q.key) == Some(q.value)
     case JournaledLocal => IsPhase(s, q.key, LocalWritten) && Get(s.local, q.key) == Some(q.value)
     case PutRemotely => IsPhase(s, q.key, LocalWritten) && c[q.key].Runtime? && Get(s.local, q.key) == Some(q.value) == Get(s.worker, q.key)
     case JournaledRemote => IsPhase(s, q.key, RemoteWritten) && c[q.key].Runtime? && Get(s.local, q.key) == Some(q.value) == Get(s.worker, q.key)
     case ComparedLocally => IsPhase(s, q.key, RemoteWritten) && c[q.key].Runtime? && Get(s.local, q.key) == Some(q.value) == Get(s.worker, q.key)
     case JournaledConverged => IsPhase(s, q.key, Converged)
     case Loaded => PendingKey(s) == Some(q.key) && c[q.key].Runtime? && Get(s.local, q.key) == Some(q.value)
     case Recovered => PendingKey(s) == Some(q.key) && c[q.key].Runtime? && Get(s.local, q.key) == Some(q.value) == Get(s.worker, q.key)
     case Ended => true)
  }

  predicate AtMostOne(s: State) {
    forall p, q :: p in s.processes && q in s.processes && !s.processes[p].stage.Ended? && !s.processes[q].stage.Ended? ==> p == q
  }

  predicate Inv(c: Schema, s: State) {
    && EqualBut(c, s, PendingKey(s))
    && (Pending(s.journal) ==> s.journal.value.key in c)
    && (Pending(s.journal) && c[s.journal.value.key].Runtime? && s.journal.value.key !in s.local ==> Equal(s, s.journal.value.key))
    && (forall key :: key in s.local ==> s.local[key] != "")
    && (forall p :: p in s.processes ==> StageOk(c, s, s.processes[p]))
    && AtMostOne(s)
  }

  /** The one command at work moves on: only what it did itself has to be looked at. */
  lemma OneMoves(c: Schema, s: State, s': State, p: nat)
    requires Inv(c, s) && p in s.processes && !s.processes[p].stage.Ended?
    requires p in s'.processes && s'.processes == s.processes[p := s'.processes[p]]
    requires StageOk(c, s', s'.processes[p])
    requires EqualBut(c, s', PendingKey(s'))
    requires Pending(s'.journal) ==>
               var key := s'.journal.value.key; key in c && (c[key].Runtime? && key !in s'.local ==> Equal(s', key))
    requires forall key :: key in s'.local ==> s'.local[key] != ""
    ensures Inv(c, s')
  {
  }

  lemma KillKeepsInv(c: Schema, s: State, p: nat)
    requires Inv(c, s) && p in s.processes
    ensures Inv(c, At(s, p, Ended))
  {
  }

  lemma LocalStepKeepsInv(c: Schema, s: State, p: nat, ok: bool, applied: bool)
    requires Inv(c, s) && p in s.processes && s.processes[p].stage in {Checked, JournaledPrepared, SetLocally}
    ensures Inv(c, AdvanceStep(c, s, p, ok, applied))
  {
    assert StageOk(c, s, s.processes[p]);
    OneMoves(c, s, AdvanceStep(c, s, p, ok, applied), p);
  }

  lemma PutStepKeepsInv(c: Schema, s: State, p: nat, ok: bool, applied: bool)
    requires Inv(c, s) && p in s.processes && s.processes[p].stage in {JournaledLocal, Loaded}
    ensures Inv(c, AdvanceStep(c, s, p, ok, applied))
  {
    assert StageOk(c, s, s.processes[p]);
    OneMoves(c, s, AdvanceStep(c, s, p, ok, applied), p);
  }

  lemma RemoteStepKeepsInv(c: Schema, s: State, p: nat, ok: bool, applied: bool)
    requires Inv(c, s) && p in s.processes && s.processes[p].stage in {PutRemotely, JournaledRemote, ComparedLocally}
    ensures Inv(c, AdvanceStep(c, s, p, ok, applied))
  {
    assert StageOk(c, s, s.processes[p]);
    OneMoves(c, s, AdvanceStep(c, s, p, ok, applied), p);
  }

  lemma ClearStepKeepsInv(c: Schema, s: State, p: nat, ok: bool, applied: bool)
    requires Inv(c, s) && p in s.processes && s.processes[p].stage in {JournaledConverged, Recovered}
    ensures Inv(c, AdvanceStep(c, s, p, ok, applied))
  {
    assert StageOk(c, s, s.processes[p]);
    OneMoves(c, s, AdvanceStep(c, s, p, ok, applied), p);
  }

  lemma AdvanceKeepsInv(c: Schema, s: State, p: nat, ok: bool, applied: bool)
    requires Inv(c, s) && p in s.processes
    ensures Inv(c, AdvanceStep(c, s, p, ok, applied))
  {
    var stage := s.processes[p].stage;
    if stage in {Checked, JournaledPrepared, SetLocally} {
      LocalStepKeepsInv(c, s, p, ok, applied);
    } else if stage in {JournaledLocal, Loaded} {
      PutStepKeepsInv(c, s, p, ok, applied);
    } else if stage in {PutRemotely, JournaledRemote, ComparedLocally} {
      RemoteStepKeepsInv(c, s, p, ok, applied);
    } else if stage in {JournaledConverged, Recovered} {
      ClearStepKeepsInv(c, s, p, ok, applied);
    } else {
      KillKeepsInv(c, s, p);
    }
  }

  /** While no command is at work, the stores are all there is to look at. */
  lemma Starts(c: Schema, s: State, s': State, p: nat, q: Process)
    requires Inv(c, s) && Idle(s) && s' == s.(processes := s.processes[p := q]) && StageOk(c, s', q)
    ensures Inv(c, s')
  {
  }

  lemma RotateKeepsInv(c: Schema, s: State, p: nat, key: string, value: string)
    requires Inv(c, s) && Idle(s)
    ensures Inv(c, StartRotate(c, s, p, key, value))
  {
  }

  lemma RecoverKeepsInv(c: Schema, s: State, p: nat)
    requires Inv(c, s) && Idle(s)
    ensures Inv(c, StartRecover(c, s, p))
  {
  }

  lemma StepKeepsInv(c: Schema, s: State, a: Action)
    requires Inv(c, s) && (a.Rotate? || a.Recover? ==> Idle(s))
    ensures Inv(c, Step(c, s, a))
  {
    match a
    case Rotate(p, key, value) => RotateKeepsInv(c, s, p, key, value);
    case Recover(p) => RecoverKeepsInv(c, s, p);
    case Advance(p, ok, applied) => if p in s.processes { AdvanceKeepsInv(c, s, p, ok, applied); }
    case Kill(p) => if p in s.processes { KillKeepsInv(c, s, p); }
  }

  lemma {:induction false} RunKeepsInv(c: Schema, s: State, acts: seq<Action>)
    requires Inv(c, s) && OneAtATime(c, s, acts)
    ensures Inv(c, Run(c, s, acts))
    decreases |acts|
  {
    if acts != [] {
      StepKeepsInv(c, s, acts[0]);
      RunKeepsInv(c, Step(c, s, acts[0]), acts[1..]);
    }
  }

  // ---------------------------------------------------------------- the theorems

  /** A store in which the Worker has every runtime credential, and no command has been run yet. */
  predicate Initial(c: Schema, s: State) {
    && AllEqual(c, s) && s.journal.None? && s.processes == map[] && forall key :: key in s.local ==> s.local[key] != ""
  }

  /** Whatever crashes or fails, wherever: while no recovery is pending the Worker has the local value of every runtime
      credential; while one is, of every one but the credential named in the journal. */
  lemma NoJournalMeansEqual(c: Schema, s: State, acts: seq<Action>)
    requires Initial(c, s) && OneAtATime(c, s, acts)
    ensures var s' := Run(c, s, acts);
            && (!Pending(s'.journal) ==> AllEqual(c, s'))
            && (Pending(s'.journal) ==> EqualBut(c, s', Some(s'.journal.value.key)) && s'.journal.value.key in c)
  {
    RunKeepsInv(c, s, acts);
  }

  /** Since state `s0` only recoveries of the pending credential have been at work, and none has finished: the journal and
      the local store are untouched, and so is the Worker, but that it may have got the local value of that credential. */
  ghost predicate StillPending(s0: State, s: State)
    requires Pending(s0.journal)
  {
    var key := s0.journal.value.key;
    && s.journal == s0.journal && s.local == s0.local
    && (forall k :: k != key ==> Get(s.worker, k) == Get(s0.worker, k))
    && Get(s.worker, key) in {Get(s0.worker, key), Get(s0.local, key)}
    && (forall p :: p in s.processes ==> RecoversOnly(s0, s.processes[p]))
  }

  predicate RecoversOnly(s0: State, q: Process)
    requires Pending(s0.journal)
  {
    q.stage.Ended?
    || ((q.stage.Loaded? || q.stage.Recovered?) && q.key == s0.journal.value.key && Get(s0.local, q.key) == Some(q.value))
  }

  /** The recovery has finished: it has cleared the journal and made all equal, and has left the local store alone. */
  predicate IsRecovered(c: Schema, s0: State, s: State) { s.journal.None? && s.local == s0.local && AllEqual(c, s) }

  /** The n-th action of the run is the one that finishes the recovery. */
  ghost predicate RecoveredAt(c: Schema, s0: State, s: State, acts: seq<Action>, n: nat)
    requires Pending(s0.journal)
  {
    0 < n <= |acts| && StillPending(s0, Run(c, s, acts[..n - 1])) && IsRecovered(c, s0, Run(c, s, acts[..n]))
  }

  lemma PendingStep(c: Schema, s0: State, s: State, a: Action)
    requires Pending(s0.journal) && StillPending(s0, s) && Inv(c, s) && (a.Rotate? || a.Recover? ==> Idle(s))
    ensures StillPending(s0, Step(c, s, a)) || IsRecovered(c, s0, Step(c, s, a))
  {
    StepKeepsInv(c, s, a);
    if a.Advance? && a.p in s.processes { PendingAdvance(c, s0, s, a.p, a.ok, a.applied); }
  }

  lemma PendingAdvance(c: Schema, s0: State, s: State, p: nat, ok: bool, applied: bool)
    requires Pending(s0.journal) && StillPending(s0, s) && Inv(c, s) && p in s.processes
    ensures var s' := AdvanceStep(c, s, p, ok, applied); StillPending(s0, s') || IsRecovered(c, s0, s')
  {
    assert RecoversOnly(s0, s.processes[p]) && StageOk(c, s, s.processes[p]);
    AdvanceKeepsInv(c, s, p, ok, applied);
  }

  lemma {:induction false} PendingRun(c: Schema, s0: State, s: State, acts: seq<Action>)
    requires Pending(s0.journal) && StillPending(s0, s) && Inv(c, s) && OneAtATime(c, s, acts)
    ensures StillPending(s0, Run(c, s, acts)) || exists n: nat :: RecoveredAt(c, s0, s, acts, n)
    decreases |acts|
  {
    if acts != [] {
      var s' := Step(c, s, acts[0]);
      PendingStep(c, s0, s, acts[0]);
      if StillPending(s0, s') {
        StepKeepsInv(c, s, acts[0]);
        PendingRun(c, s0, s', acts[1..]);
        if n: nat :| RecoveredAt(c, s0, s', acts[1..], n) {
          assert acts[..n][1..] == acts[1..][..n - 1] && acts[..n + 1][1..] == acts[1..][..n];
          assert RecoveredAt(c, s0, s, acts, n + 1);
        }
      } else {
        RunOne(c, s, acts[0]);
        assert acts[..1] == [acts[0]] && acts[..0] == [];
        assert RecoveredAt(c, s0, s, acts, 1);
      }
    }
  }

  /** Once a rotation has ended with a pending journal, no later command gets round it: until a recovery has made all
      equal, every rotation is without effect, and nothing but the Worker's value of the pending credential can change. */
  lemma PendingUntilRecovered(c: Schema, s: State, acts: seq<Action>, later: seq<Action>)
    requires Initial(c, s) && OneAtATime(c, s, acts)
    requires var s0 := Run(c, s, acts); Idle(s0) && Pending(s0.journal) && OneAtATime(c, s0, later)
    ensures var s0 := Run(c, s, acts);
            StillPending(s0, Run(c, s0, later)) || exists n: nat :: RecoveredAt(c, s0, s0, later, n)
  {
    RunKeepsInv(c, s, acts);
    PendingRun(c, Run(c, s, acts), Run(c, s, acts), later);
  }

  lemma RunOne(c: Schema, s: State, a: Action)
    ensures Run(c, s, [a]) == Step(c, s, a)
  {
  }

  lemma RunTwo(c: Schema, s: State, a: Action, b: Action)
    ensures Run(c, s, [a, b]) == Step(c, Step(c, s, a), b)
  {
    RunOne(c, Step(c, s, a), b);
    assert [a, b][1..] == [b];
  }

  lemma RunThree(c: Schema, s: State, a: Action, b: Action, d: Action)
    ensures Run(c, s, [a, b, d]) == Step(c, Step(c, Step(c, s, a), b), d)
  {
    RunTwo(c, Step(c, s, a), b, d);
    assert [a, b, d][1..] == [b, d];
  }

  lemma RecoveryRestores(c: Schema, s: State, p: nat)
    requires Inv(c, s) && Idle(s) && Pending(s.journal) && p !in s.processes
    ensures var r := Run(c, s, [Recover(p), Advance(p, true, true), Advance(p, true, true)]);
            r.journal.None? && AllEqual(c, r) && r.local == s.local
  {
    RunThree(c, s, Recover(p), Advance(p, true, true), Advance(p, true, true));
    var s1 := StartRecover(c, s, p);
    RecoverKeepsInv(c, s, p);
    if p in s1.processes {
      TwoStepsFinish(c, s1, p);
    }
  }

  lemma TwoStepsFinish(c: Schema, s: State, p: nat)
    requires Inv(c, s) && p in s.processes && s.processes[p].stage.Loaded?
    ensures var r := AdvanceStep(c, AdvanceStep(c, s, p, true, true), p, true, true); Inv(c, r) && r.journal.None? && r.local == s.local
  {
    PutStepKeepsInv(c, s, p, true, true);
    ClearStepKeepsInv(c, AdvanceStep(c, s, p, true, true), p, true, true);
  }

  /** From any pending state, whatever led there, one successful recovery clears the journal and makes all equal. */
  lemma OneRecoveryRestores(c: Schema, s: State, acts: seq<Action>, p: nat)
    requires Initial(c, s) && OneAtATime(c, s, acts)
    requires var s' := Run(c, s, acts); Idle(s') && Pending(s'.journal) && p !in s'.processes
    ensures var r := Run(c, Run(c, s, acts), [Recover(p), Advance(p, true, true), Advance(p, true, true)]);
            r.journal.None? && AllEqual(c, r) && r.local == Run(c, s, acts).local
  {
    RunKeepsInv(c, s, acts);
    RecoveryRestores(c, Run(c, s, acts), p);
  }

  /** A recovery at work is one of a runtime credential. */
  predicate LoadedOk(c: Schema, q: Process) { q.stage.Loaded? ==> q.key in c && c[q.key].Runtime? }

  predicate AllLoadedOk(c: Schema, s: State) { forall p :: p in s.processes ==> LoadedOk(c, s.processes[p]) }

  lemma AdvanceLeavesLoaded(c: Schema, s: State, p: nat, ok: bool, applied: bool)
    requires p in s.processes
    ensures var s' := AdvanceStep(c, s, p, ok, applied);
            p in s'.processes && s'.processes == s.processes[p := s'.processes[p]] && !s'.processes[p].stage.Loaded?
  {
  }

  lemma OtherProcessesStay(c: Schema, s: State, s': State, p: nat)
    requires AllLoadedOk(c, s) && p in s'.processes && s'.processes == s.processes[p := s'.processes[p]] && LoadedOk(c, s'.processes[p])
    ensures AllLoadedOk(c, s')
  {
  }

  lemma StepKeepsLoadedOk(c: Schema, s: State, a: Action)
    requires AllLoadedOk(c, s)
    ensures AllLoadedOk(c, Step(c, s, a))
  {
    var s' := Step(c, s, a);
    match a
    case Rotate(p, _, _) => if s' != s { OtherProcessesStay(c, s, s', p); }
    case Recover(p) => if p in s'.processes && p !in s.processes { OtherProcessesStay(c, s, s', p); }
    case Advance(p, ok, applied) =>
      if p in s.processes {
        AdvanceLeavesLoaded(c, s, p, ok, applied);
        OtherProcessesStay(c, s, s', p);
      }
    case Kill(p) => if p in s.processes { OtherProcessesStay(c, s, s', p); }
  }

  lemma StepSparesOperatorKeys(c: Schema, s: State, a: Action, key: string)
    requires key in c && c[key].OperatorLocal? && AllLoadedOk(c, s)
    ensures Get(Step(c, s, a).worker, key) == Get(s.worker, key)
  {
  }

  /** An operator-local credential never reaches the Worker, not even when commands run at the same time. */
  lemma {:induction false} OperatorKeysStayLocal(c: Schema, s: State, acts: seq<Action>, key: string)
    requires key in c && c[key].OperatorLocal? && AllLoadedOk(c, s)
    ensures Get(Run(c, s, acts).worker, key) == Get(s.worker, key)
    decreases |acts|
  {
    if acts != [] {
      StepSparesOperatorKeys(c, s, acts[0], key);
      StepKeepsLoadedOk(c, s, acts[0]);
      OperatorKeysStayLocal(c, Step(c, s, acts[0]), acts[1..], key);
    }
  }

  lemma {:induction false} RunAppend(c: Schema, s: State, a: seq<Action>, b: seq<Action>)
    ensures Run(c, s, a + b) == Run(c, Run(c, s, a), b)
    decreases |a|
  {
    if a == [] {
      assert a + b == b;
    } else {
      assert (a + b)[1..] == a[1..] + b;
      RunAppend(c, Step(c, s, a[0]), a[1..], b);
    }
  }

  // ---------------------------------------------------------------- two rotations at once

  /** Both commands have passed the check before either wrote its journal. */
  function BothChecked(s: State, k1: string, v1: string, k2: string, v2: string): State {
    s.(processes := map[0 := Process(k1, v1, Checked), 1 := Process(k2, v2, Checked)])
  }

  const GO: Action := Advance(1, true, true)
  const FAIL: Action := Advance(0, false, false)

  /** The first three steps of a rotation: journal, local store, journal. */
  function WrittenLocally(s: State, p: nat, key: string, value: string): State {
    State(s.local[key := value], s.worker, Some(Journal(key, LocalWritten)), s.processes[p := Process(key, value, JournaledLocal)])
  }

  lemma LocalSteps(c: Schema, s: State, p: nat, key: string, value: string, a: Action)
    requires p in s.processes && s.processes[p] == Process(key, value, Checked) && a.Advance? && a.p == p
    ensures Run(c, s, [a, a, a]) == WrittenLocally(s, p, key, value)
  {
    RunThree(c, s, a, a, a);
    var s1 := At(Journaled(s, key, Prepared), p, JournaledPrepared);
    var s2 := At(s1.(local := s.local[key := value]), p, SetLocally);
    assert Step(c, s, a) == s1 && Step(c, s1, a) == s2;
  }

  /** A rotation that fails remotely leaves a pending journal. */
  lemma RotationFails(c: Schema, s: State, p: nat, key: string, value: string, a: Action)
    requires p in s.processes && s.processes[p] == Process(key, value, Checked) && key in c && c[key].Runtime?
    requires a == Advance(p, false, false)
    ensures Run(c, s, [a, a, a] + [a]) == WrittenLocally(s, p, key, value).(processes := s.processes[p := Process(key, value, Ended)])
  {
    var w := WrittenLocally(s, p, key, value);
    LocalSteps(c, s, p, key, value, a);
    RunAppend(c, s, [a, a, a], [a]);
    RunOne(c, w, a);
  }

  /** The remote half of a rotation, up to the comparison with the local value. */
  lemma RemoteSteps(c: Schema, s: State, p: nat, key: string, value: string, a: Action)
    requires p in s.processes && s.processes[p] == Process(key, value, JournaledLocal) && key in c && c[key].Runtime?
    requires Get(s.local, key) == Some(value) && a == Advance(p, true, true)
    ensures var r := Run(c, s, [a, a, a]);
            && r.local == s.local && r.worker == s.worker[key := value]
            && p in r.processes && r.processes[p] == Process(key, value, ComparedLocally)
  {
    RunThree(c, s, a, a, a);
  }

  lemma RotationFinishes(c: Schema, s: State, p: nat, key: string, value: string, a: Action)
    requires p in s.processes && s.processes[p] == Process(key, value, Checked) && key in c && c[key].Runtime?
    requires a == Advance(p, true, true)
    ensures var r := Run(c, s, [a, a, a] + ([a, a, a] + [a, a]));
            r.journal == None && r.local == s.local[key := value] && r.worker == s.worker[key := value]
  {
    var s1 := WrittenLocally(s, p, key, value);
    LocalSteps(c, s, p, key, value, a);
    RemoteSteps(c, s1, p, key, value, a);
    var s2 := Run(c, s1, [a, a, a]);
    RunAppend(c, s, [a, a, a], [a, a, a] + [a, a]);
    RunAppend(c, s1, [a, a, a], [a, a]);
    RunTwo(c, s2, a, a);
  }

  lemma LocalRotationFinishes(c: Schema, s: State, p: nat, key: string, value: string, a: Action)
    requires p in s.processes && s.processes[p] == Process(key, value, Checked) && key in c && c[key].OperatorLocal? && a == Advance(p, true, true)
    ensures var r := Run(c, s, [a, a, a] + [a]);
            r.journal == None && r.local == s.local[key := value] && r.worker == s.worker
  {
    LocalSteps(c, s, p, key, value, a);
    RunAppend(c, s, [a, a, a], [a]);
    RunOne(c, WrittenLocally(s, p, key, value), a);
  }

  /** A rotation that nothing disturbs, started while no recovery is pending, sets the local value, and the Worker's if it is a
      runtime credential, and leaves no journal. */
  lemma RotationTakesEffect(c: Schema, s: State, p: nat, key: string, value: string, a: Action)
    requires !Pending(s.journal) && p !in s.processes && key in c && key != AUTH_PEPPER && value != "" && a == Advance(p, true, true)
    ensures var steps := if c[key].Runtime? then [a, a, a] + ([a, a, a] + [a, a]) else [a, a, a] + [a];
            var r := Run(c, s, [Rotate(p, key, value)] + steps);
            && r.journal == None && r.local == s.local[key := value]
            && r.worker == if c[key].Runtime? then s.worker[key := value] else s.worker
  {
    var s1 := StartRotate(c, s, p, key, value);
    RunOne(c, s, Rotate(p, key, value));
    if c[key].Runtime? {
      RotationFinishes(c, s1, p, key, value, a);
      RunAppend(c, s, [Rotate(p, key, value)], [a, a, a] + ([a, a, a] + [a, a]));
    } else {
      LocalRotationFinishes(c, s1, p, key, value, a);
      RunAppend(c, s, [Rotate(p, key, value)], [a, a, a] + [a]);
    }
  }

  /** The check is not atomic with the first journal entry: two rotations started together can leave the Worker with an
      old credential and no journal to say so. */
  lemma ConcurrentRotationsLoseTheJournal(c: Schema, s: State, k1: string, v1: string, k2: string, v2: string)
    requires Initial(c, s) && k1 in c && k2 in c && c[k1].Runtime? && c[k2].Runtime? && k1 != k2
    requires k1 != AUTH_PEPPER && k2 != AUTH_PEPPER && v1 != "" && v2 != "" && Get(s.local, k1) != Some(v1)
    ensures exists acts :: var r := Run(c, s, acts); r.journal == None && !Equal(r, k1)
  {
    var start := [Rotate(0, k1, v1), Rotate(1, k2, v2)];
    var first, second := [FAIL, FAIL, FAIL] + [FAIL], [GO, GO, GO] + ([GO, GO, GO] + [GO, GO]);
    var b := BothChecked(s, k1, v1, k2, v2);
    RunTwo(c, s, start[0], start[1]);
    assert Run(c, s, start) == b;
    RotationFails(c, b, 0, k1, v1, FAIL);
    RotationFinishes(c, Run(c, b, first), 1, k2, v2, GO);
    RunAppend(c, s, start, first + second);
    RunAppend(c, b, first, second);
    var r := Run(c, s, start + (first + second));
    assert r.journal == None && Get(r.local, k1) == Some(v1) && Get(r.worker, k1) == Get(s.worker, k1);
    assert Equal(s, k1);
  }
}
