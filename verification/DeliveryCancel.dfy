/**
  The cancellation protocol of governed deliveries, as a transition system over
  its two threads: the stdin reader, which handles `agent:cancel` inline, and
  the worker, which takes every other request in turn.  What an orchestrator
  does while a gate runs is left open; every step below is one atomic block.
 */
module DeliveryCancel {
  import opened Wrappers
  import opened Collections

  datatype RunId = RunId(name: string)

  datatype Status = Active | AwaitingVerdict | Reopened | Blocked | Complete | Stopped | Cancelled

  predicate Terminal(st: Status) {
    st == Complete || st == Stopped || st == Cancelled
  }

  /** An orchestrator object, identified by its position in `State.orchs`. */
  datatype Orch = Orch(run: RunId, status: Status)

  datatype Kind = Deliver | Verdict

  /** Where the worker thread is. */
  datatype Worker =
    | Idle
    | Checked(run: RunId)                                   // deliver found the run id fresh
    | Prepared(run: RunId)                                  // deliver cleared the marker and seeded the flag
    | Running(run: RunId, h: nat, kind: Kind)               // registered; the orchestrator has control
    | Raised(run: RunId, h: nat)                            // deliver's handler has unregistered the worker
    | Returned(run: RunId, h: nat, kind: Kind, elsewhere: bool)
    | Resuming(run: RunId, cancelSeen: bool, persisted: Status)
    | ResumeCancelled(run: RunId)                           // resume has persisted the cancellation

  /** Where the reader thread is. */
  datatype Reader =
    | Ready
    | Looked(run: RunId, captured: Option<nat>)
    | Flagged(run: RunId, captured: Option<nat>, prior: Option<bool>)
    | Published(run: RunId, captured: Option<nat>)

  datatype State = State(
    active: map<RunId, nat>,     // _ACTIVE_DELIVERIES
    workers: set<RunId>,         // _ACTIVE_DELIVERY_WORKERS
    flags: map<RunId, bool>,     // _AGENT_CANCEL_FLAGS
    markers: set<RunId>,         // runs with a cancel-requested.json
    disk: map<RunId, Status>,    // the status in delivery.json
    dirs: set<RunId>,            // runs that have a run directory
    orchs: seq<Orch>,
    lock: Option<nat>,           // the orchestrator that holds the delivery lock
    worker: Worker,
    reader: Reader,
    pending: set<RunId>)         // history: published cancels of deliveries that are still open

  /** `_agent_cancel_requested` */
  predicate Intent(s: State, r: RunId) {
    (r in s.flags && s.flags[r]) || r in s.markers
  }

  /** Clearing a marker swallows errors, so it may leave the file behind. */
  function Clear(s: State, r: RunId, cleared: bool): State {
    if cleared then s.(markers := s.markers - {r}) else s
  }

  /** Forget the run: out of the registry and the flag table, and its marker cleared. */
  function Unregister(s: State, r: RunId, cleared: bool): State {
    Clear(s.(active := s.active - {r}, flags := s.flags - {r}, pending := s.pending - {r}), r, cleared)
  }

  function SetStatus(s: State, h: nat, st: Status): State
    requires h < |s.orchs|
  {
    s.(orchs := s.orchs[h := s.orchs[h].(status := st)])
  }

  function Persist(s: State, r: RunId, st: Status): State {
    s.(disk := s.disk[r := st], dirs := s.dirs + {r})
  }

  /** Only the holder's own release has an effect. */
  function Release(s: State, h: nat): State {
    if s.lock == Some(h) then s.(lock := None) else s
  }

  /** Mark the delivery cancelled, persist that, and release its lock. */
  function Terminalise(s: State, r: RunId, h: nat): State
    requires h < |s.orchs|
  {
    Release(Persist(SetStatus(s, h, Cancelled), r, Cancelled), h)
  }

  // ---------------------------------------------------------------------------
  // Steps
  // ---------------------------------------------------------------------------

  datatype Step =
    // worker: agent:deliver
    | DeliverCheck(run: RunId)
    | DeliverPrepare(cleared: bool)
    | DeliverAbandon                                    // provider construction failed
    | DeliverRegister
    | DeliverRaise
    | DeliverCleanup(cleared: bool)
    // worker: agent:verdict
    | VerdictStart(run: RunId, persistOk: bool, cleared: bool)
    | VerdictRaise
    // worker: the long operation, and the return from it
    | Operate(status: Status, persist: bool, takeLock: bool, dropLock: bool)
    | Return(elsewhere: bool)
    | PostRun(persistOk: bool, cleared: bool)
    // worker: agent:resume of a governed delivery
    | ResumeRead(run: RunId)
    | ResumeFail
    | ResumeCancel
    | ResumeCancelCleanup(cleared: bool)
    | ResumeLoad(recovered: Option<Status>, cleared: bool)
    // reader: agent:cancel
    | CancelLookup(run: RunId)
    | CancelFlag
    | CancelMarkerFails
    | CancelPublish
    | CancelFinish(persistOk: bool, cleared: bool)

  predicate ReaderStep(step: Step) {
    step.CancelLookup? || step.CancelFlag? || step.CancelMarkerFails? || step.CancelPublish? || step.CancelFinish?
  }

  /** The status a resumed orchestrator has: the persisted one, unless release recovery finished the delivery. */
  function Restored(s: State, recovered: Option<Status>): Status
    requires s.worker.Resuming? && s.worker.run in s.disk
  {
    recovered.GetOr(s.disk[s.worker.run])
  }

  predicate Enabled(s: State, step: Step) {
    match step
    case DeliverCheck(r) => s.worker == Idle && r !in s.active && r !in s.dirs
    case DeliverPrepare(_) => s.worker.Checked?
    case DeliverAbandon => s.worker.Prepared?
    case DeliverRegister => s.worker.Prepared?
    case DeliverRaise => s.worker.Running? && s.worker.kind == Deliver
    case DeliverCleanup(_) => s.worker.Raised? && s.worker.h < |s.orchs|
    case VerdictStart(r, _, _) => s.worker == Idle && r in s.active && r !in s.workers && s.active[r] < |s.orchs|
    case VerdictRaise => s.worker.Running? && s.worker.kind == Verdict
    case Operate(_, _, _, _) => s.worker.Running? && s.worker.h < |s.orchs|
    case Return(elsewhere) => s.worker.Running? && (elsewhere ==> s.worker.kind == Deliver)
    case PostRun(_, _) => s.worker.Returned? && s.worker.h < |s.orchs|
    case ResumeRead(r) => s.worker == Idle && r !in s.active && r in s.disk
    case ResumeFail => s.worker.Resuming?
    case ResumeCancel => s.worker.Resuming? && s.worker.cancelSeen && !Terminal(s.worker.persisted) && s.lock == None
    case ResumeCancelCleanup(_) => s.worker.ResumeCancelled?
    case ResumeLoad(recovered, _) =>
      && s.worker.Resuming? && !(s.worker.cancelSeen && !Terminal(s.worker.persisted)) && s.worker.run in s.disk
      && (recovered.Some? ==> Terminal(recovered.value))
      && Restored(s, recovered) != Active      // the re-run of an active gate is not modelled
      && Restored(s, recovered) != Cancelled   // refused as not resumable
      && (Terminal(Restored(s, recovered)) || s.lock == None)
    case CancelLookup(r) => s.reader == Ready && (r in s.active || (r in s.disk && !Terminal(s.disk[r])))
    case CancelFlag => s.reader.Looked?
    case CancelMarkerFails => s.reader.Flagged?
    case CancelPublish => s.reader.Flagged?
    case CancelFinish(_, _) => s.reader.Published? && (s.reader.captured.Some? ==> s.reader.captured.value < |s.orchs|)
  }

  /** The delivery is registered, or can be resumed from its record. */
  predicate Open(s: State, r: RunId) {
    r in s.active || (r in s.disk && !Terminal(s.disk[r]))
  }

  /** The check and cleanup after a deliver or verdict operation has returned. */
  function AfterRun(s: State, r: RunId, h: nat, elsewhere: bool, persistOk: bool, cleared: bool): State
    requires h < |s.orchs|
  {
    var cancels := Intent(s, r) && !Terminal(s.orchs[h].status);
    if cancels && !persistOk then SetStatus(s, h, Cancelled)
    else
      var t := if cancels then Terminalise(s, r, h) else s;
      if elsewhere && !cancels then Unregister(t, r, false)   // the marker is left as it is
      else if Terminal(t.orchs[h].status) then Unregister(t, r, cleared)
      else t
  }

  function Next(s: State, step: Step): State
    requires Enabled(s, step)
  {
    match step
    case DeliverCheck(r) => s.(worker := Checked(r))
    case DeliverPrepare(cleared) =>
      var r := s.worker.run;
      Clear(s.(flags := if r in s.flags then s.flags else s.flags[r := false], worker := Prepared(r)), r, cleared)
    case DeliverAbandon => s.(worker := Idle)
    case DeliverRegister =>
      var r, h := s.worker.run, |s.orchs|;
      s.(orchs := s.orchs + [Orch(r, Active)], active := s.active[r := h], workers := s.workers + {r},
         worker := Running(r, h, Deliver))
    case DeliverRaise =>
      s.(workers := s.workers - {s.worker.run}, worker := Raised(s.worker.run, s.worker.h))
    case DeliverCleanup(cleared) =>
      Release(Unregister(s, s.worker.run, cleared), s.worker.h).(worker := Idle)
    case VerdictStart(r, persistOk, cleared) =>
      var h := s.active[r];
      if !Intent(s, r) then s.(workers := s.workers + {r}, worker := Running(r, h, Verdict))
      else if !persistOk then SetStatus(s, h, Cancelled)
      else Unregister(Terminalise(s, r, h), r, cleared)
    case VerdictRaise => s.(workers := s.workers - {s.worker.run}, worker := Idle)
    case Operate(status, persist, takeLock, dropLock) =>
      var r, h := s.worker.run, s.worker.h;
      var t := SetStatus(s, h, status);
      var u := if persist then Persist(t, r, status) else t;
      if takeLock && u.lock == None then u.(lock := Some(h))
      else if dropLock then Release(u, h)
      else u
    case Return(elsewhere) =>
      s.(workers := s.workers - {s.worker.run}, worker := Returned(s.worker.run, s.worker.h, s.worker.kind, elsewhere))
    case PostRun(persistOk, cleared) =>
      AfterRun(s, s.worker.run, s.worker.h, s.worker.elsewhere, persistOk, cleared).(worker := Idle)
    case ResumeRead(r) => s.(worker := Resuming(r, Intent(s, r), s.disk[r]))
    case ResumeFail => s.(worker := Idle)
    case ResumeCancel =>
      var r := s.worker.run;
      Persist(s.(orchs := s.orchs + [Orch(r, Cancelled)]), r, Cancelled).(worker := ResumeCancelled(r))
    case ResumeCancelCleanup(cleared) => Unregister(s, s.worker.run, cleared).(worker := Idle)
    case ResumeLoad(recovered, cleared) =>
      var r, h, st := s.worker.run, |s.orchs|, Restored(s, recovered);
      var t := s.(orchs := s.orchs + [Orch(r, st)], worker := Idle);
      if Terminal(st) then Unregister(if recovered.Some? then Persist(t, r, st) else t, r, cleared)
      else t.(active := t.active[r := h], lock := Some(h))
    case CancelLookup(r) => s.(reader := Looked(r, Lookup(s.active, r)))
    case CancelFlag =>
      var r := s.reader.run;
      s.(flags := s.flags[r := true], reader := Flagged(r, s.reader.captured, Lookup(s.flags, r)))
    case CancelMarkerFails =>
      var r := s.reader.run;
      s.(flags := (match s.reader.prior case Some(b) => s.flags[r := b] case None => s.flags - {r}), reader := Ready)
    case CancelPublish =>
      var r := s.reader.run;
      s.(markers := s.markers + {r}, dirs := s.dirs + {r}, reader := Published(r, s.reader.captured),
         pending := if Open(s, r) then s.pending + {r} else s.pending)
    case CancelFinish(persistOk, cleared) =>
      var r := s.reader.run;
      var t := s.(reader := Ready);
      if s.reader.captured.None? || r in s.workers then t
      else if !persistOk then SetStatus(t, s.reader.captured.value, Cancelled)
      else Unregister(Terminalise(t, r, s.reader.captured.value), r, cleared)
  }

  // ---------------------------------------------------------------------------
  // The invariant
  // ---------------------------------------------------------------------------

  /** `h` is an orchestrator of run `r`. */
  predicate OrchOf(s: State, r: RunId, h: nat) {
    h < |s.orchs| && s.orchs[h].run == r
  }

  ghost predicate RegistryOk(s: State) {
    && (forall r :: r in s.active ==> OrchOf(s, r, s.active[r]))
    && s.disk.Keys <= s.dirs
    && s.pending <= s.dirs
  }

  predicate WorkerOk(s: State) {
    match s.worker
    case Running(r, h, _) => s.workers == {r} && r in s.active && s.active[r] == h
    case Raised(r, h) => s.workers == {} && OrchOf(s, r, h) && (r in s.active ==> s.active[r] == h)
    case Returned(r, h, _, _) => s.workers == {} && OrchOf(s, r, h) && (r in s.active ==> s.active[r] == h)
    case Checked(r) => s.workers == {} && Fresh(s, r)
    case Prepared(r) => s.workers == {} && Fresh(s, r)
    case Resuming(r, _, _) => s.workers == {} && r !in s.active
    case ResumeCancelled(r) => s.workers == {} && r in s.disk && Terminal(s.disk[r])
    case _ => s.workers == {}
  }

  /** A run that deliver may still start: unregistered, with no open cancel, and not resumable. */
  predicate Fresh(s: State, r: RunId) {
    r !in s.active && r !in s.pending && (r in s.disk ==> Terminal(s.disk[r]))
  }

  predicate ReaderOk(s: State) {
    match s.reader
    case Ready => true
    case Looked(r, captured) => captured.Some? ==> OrchOf(s, r, captured.value)
    case Flagged(r, captured, prior) =>
      && (captured.Some? ==> OrchOf(s, r, captured.value))
      && (r in s.pending ==> r in s.markers || prior == Some(true))
    case Published(r, captured) => captured.Some? ==> OrchOf(s, r, captured.value)
  }

  /** The intent of every open cancel is visible to whoever looks. */
  ghost predicate PendingOk(s: State) {
    forall r :: r in s.pending ==> Intent(s, r)
  }

  ghost predicate Inv(s: State) {
    RegistryOk(s) && WorkerOk(s) && ReaderOk(s) && PendingOk(s)
  }

  /** A sidecar that has just started, over whatever an earlier one left on disk. */
  predicate Init(s: State) {
    && s.active == map[] && s.workers == {} && s.flags == map[] && s.pending == {}
    && s.disk.Keys <= s.dirs && s.markers <= s.dirs
    && s.worker == Idle && s.reader == Ready
  }

  // The blocks that steps are made of.

  lemma ReleaseInv(s: State, h: nat)
    requires Inv(s)
    ensures Inv(Release(s, h))
  {
  }

  lemma TerminaliseInv(s: State, r: RunId, h: nat)
    requires Inv(s) && h < |s.orchs|
    ensures Inv(Terminalise(s, r, h))
  {
    ReleaseInv(Persist(SetStatus(s, h, Cancelled), r, Cancelled), h);
  }

  lemma UnregisterInv(s: State, r: RunId, cleared: bool)
    requires Inv(s) && r !in s.workers
    ensures Inv(Unregister(s, r, cleared))
  {
  }

  lemma ReadyInv(s: State)
    requires Inv(s)
    ensures Inv(s.(reader := Ready))
  {
  }

  // The steps.

  lemma WorkerMoves(s: State, step: Step)
    requires Inv(s) && Enabled(s, step)
    requires step.DeliverCheck? || step.DeliverAbandon? || step.VerdictRaise? || step.Return?
          || step.ResumeRead? || step.ResumeFail?
    ensures Inv(Next(s, step))
  {
  }

  lemma DeliverBegins(s: State, step: Step)
    requires Inv(s) && Enabled(s, step)
    requires step.DeliverPrepare? || step.DeliverRegister? || step.DeliverRaise?
    ensures Inv(Next(s, step))
  {
  }

  lemma DeliverCleansUp(s: State, step: Step)
    requires Inv(s) && Enabled(s, step) && step.DeliverCleanup?
    ensures Inv(Next(s, step))
  {
    var r, h := s.worker.run, s.worker.h;
    UnregisterInv(s, r, step.cleared);
    ReleaseInv(Unregister(s, r, step.cleared), h);
  }

  lemma VerdictStarts(s: State, step: Step)
    requires Inv(s) && Enabled(s, step) && step.VerdictStart?
    ensures Inv(Next(s, step))
  {
    var r := step.run;
    var h := s.active[r];
    if Intent(s, r) {
      TerminaliseInv(s, r, h);
      UnregisterInv(Terminalise(s, r, h), r, step.cleared);
    }
  }

  lemma Operates(s: State, step: Step)
    requires Inv(s) && Enabled(s, step) && step.Operate?
    ensures Inv(Next(s, step))
  {
    var r, h := s.worker.run, s.worker.h;
    var t := SetStatus(s, h, step.status);
    var u := if step.persist then Persist(t, r, step.status) else t;
    ReleaseInv(u, h);
    assert Inv(u.(lock := Some(h)));
  }

  lemma AfterRunInv(s: State, step: Step)
    requires Inv(s) && Enabled(s, step) && step.PostRun?
    ensures Inv(Next(s, step))
  {
    var r, h := s.worker.run, s.worker.h;
    AfterRunBlockInv(s, r, h, s.worker.elsewhere, step.persistOk, step.cleared);
  }

  lemma AfterRunBlockInv(s: State, r: RunId, h: nat, elsewhere: bool, persistOk: bool, cleared: bool)
    requires Inv(s) && h < |s.orchs| && s.workers == {}
    ensures Inv(AfterRun(s, r, h, elsewhere, persistOk, cleared))
    ensures AfterRun(s, r, h, elsewhere, persistOk, cleared).workers == {}
  {
    if Intent(s, r) && !Terminal(s.orchs[h].status) {
      if persistOk {
        TerminaliseInv(s, r, h);
        UnregisterInv(Terminalise(s, r, h), r, cleared);
      }
    } else {
      UnregisterInv(s, r, false);
      UnregisterInv(s, r, cleared);
    }
  }

  lemma ResumeMoves(s: State, step: Step)
    requires Inv(s) && Enabled(s, step)
    requires step.ResumeCancel? || step.ResumeCancelCleanup?
    ensures Inv(Next(s, step))
  {
  }

  lemma ResumeLoads(s: State, step: Step)
    requires Inv(s) && Enabled(s, step) && step.ResumeLoad?
    ensures Inv(Next(s, step))
  {
  }

  lemma ReaderPublishes(s: State, step: Step)
    requires Inv(s) && Enabled(s, step)
    requires step.CancelLookup? || step.CancelFlag? || step.CancelMarkerFails? || step.CancelPublish?
    ensures Inv(Next(s, step))
  {
  }

  lemma ReaderFinishes(s: State, step: Step)
    requires Inv(s) && Enabled(s, step) && step.CancelFinish?
    ensures Inv(Next(s, step))
  {
    var r := s.reader.run;
    var t := s.(reader := Ready);
    ReadyInv(s);
    if s.reader.captured.Some? && r !in s.workers {
      var h := s.reader.captured.value;
      TerminaliseInv(t, r, h);
      UnregisterInv(Terminalise(t, r, h), r, step.cleared);
    }
  }

  /** The invariant is inductive: every step of either thread keeps it. */
  lemma StepInv(s: State, step: Step)
    requires Inv(s) && Enabled(s, step)
    ensures Inv(Next(s, step))
  {
    match step
    case DeliverPrepare(_) => DeliverBegins(s, step);
    case DeliverRegister => DeliverBegins(s, step);
    case DeliverRaise => DeliverBegins(s, step);
    case DeliverCleanup(_) => DeliverCleansUp(s, step);
    case VerdictStart(_, _, _) => VerdictStarts(s, step);
    case Operate(_, _, _, _) => Operates(s, step);
    case PostRun(_, _) => AfterRunInv(s, step);
    case ResumeCancel => ResumeMoves(s, step);
    case ResumeCancelCleanup(_) => ResumeMoves(s, step);
    case ResumeLoad(_, _) => ResumeLoads(s, step);
    case CancelFinish(_, _) => ReaderFinishes(s, step);
    case _ => if ReaderStep(step) { ReaderPublishes(s, step); } else { WorkerMoves(s, step); }
  }

  // ---------------------------------------------------------------------------
  // Executions
  // ---------------------------------------------------------------------------

  predicate Takes(s: State, step: Step, t: State) {
    Enabled(s, step) && t == Next(s, step)
  }

  predicate StepAt(states: seq<State>, steps: seq<Step>, i: nat)
    requires i < |steps| && |states| == |steps| + 1
  {
    Takes(states[i], steps[i], states[i + 1])
  }

  ghost predicate Path(states: seq<State>, steps: seq<Step>) {
    && |states| == |steps| + 1
    && forall i :: 0 <= i < |steps| ==> StepAt(states, steps, i)
  }

  /** Any interleaving of the two threads. */
  ghost predicate Execution(states: seq<State>, steps: seq<Step>) {
    Path(states, steps) && Init(states[0])
  }

  lemma {:induction false} ExecutionInv(states: seq<State>, steps: seq<Step>, i: nat)
    requires Execution(states, steps) && i < |states|
    ensures Inv(states[i])
    decreases i
  {
    if i > 0 {
      ExecutionInv(states, steps, i - 1);
      assert StepAt(states, steps, i - 1);
      StepInv(states[i - 1], steps[i - 1]);
    }
  }

  // No accepted cancel is lost.

  /** The step deals with the run: it is the worker's step on it, or the reader's. */
  predicate About(s: State, step: Step, r: RunId) {
    if step.VerdictStart? then step.run == r
    else if step.CancelFinish? then s.reader.Published? && s.reader.run == r
    else !ReaderStep(step) && !s.worker.Idle? && s.worker.run == r
  }

  /** What the step leaves behind is terminal: the record on disk, or the registered or just returned orchestrator. */
  predicate EndedIn(s: State, t: State, r: RunId) {
    || (r in t.disk && Terminal(t.disk[r]))
    || (r in s.active && s.active[r] < |t.orchs| && Terminal(t.orchs[s.active[r]].status))
    || (s.worker.Returned? && s.worker.run == r && s.worker.h < |t.orchs| && Terminal(t.orchs[s.worker.h].status))
  }

  /**
    The step from `s` to `t` ends the delivery of `r`: it deals with that run and
    leaves it out of the registry, and the delivery is terminal, or its start
    raised, or it never began because another delivery holds the workspace.
   */
  predicate Ends(s: State, step: Step, t: State, r: RunId) {
    && About(s, step, r)
    && r !in t.active
    && (EndedIn(s, t, r)
        || (step.DeliverCleanup? && s.worker.Raised?)
        || (step.PostRun? && s.worker.Returned? && s.worker.elsewhere))
  }

  lemma VerdictDrops(s: State, step: Step, r: RunId)
    requires Inv(s) && Enabled(s, step) && step.VerdictStart?
    requires r in s.pending && r !in Next(s, step).pending
    ensures Ends(s, step, Next(s, step), r)
  {
  }

  /**
    A deliver or verdict that returns normally leaves no cancel unanswered: the run
    is unregistered or none is requested.
   */
  lemma PostRunSettles(s: State, step: Step)
    requires Inv(s) && Enabled(s, step) && step.PostRun? && step.persistOk
    ensures s.worker.run in Next(s, step).active ==> !Intent(Next(s, step), s.worker.run)
    ensures Intent(s, s.worker.run) ==> Ends(s, step, Next(s, step), s.worker.run)
    ensures Intent(s, s.worker.run) && !Terminal(s.orchs[s.worker.h].status) ==>
              var t := Next(s, step);
              && t.orchs[s.worker.h].status == Cancelled && Lookup(t.disk, s.worker.run) == Some(Cancelled)
              && t.lock == if s.lock == Some(s.worker.h) then None else s.lock
  {
    if Intent(s, s.worker.run) && !Terminal(s.orchs[s.worker.h].status) {
      PostRunCancels(s, step);
    }
    if Intent(s, s.worker.run) {
      PostRunEnds(s, step);
    }
  }

  /** The check after a run cancels the orchestrator, records that, and frees the lock if it holds it. */
  lemma PostRunCancels(s: State, step: Step)
    requires Enabled(s, step) && step.PostRun? && step.persistOk
    requires Intent(s, s.worker.run) && !Terminal(s.orchs[s.worker.h].status)
    ensures var t := Next(s, step);
            && t.orchs[s.worker.h].status == Cancelled && Lookup(t.disk, s.worker.run) == Some(Cancelled)
            && t.lock == if s.lock == Some(s.worker.h) then None else s.lock
  {
  }

  /** With a cancel requested the run is over, unless the cancelled status could not be written. */
  lemma PostRunEnds(s: State, step: Step)
    requires Inv(s) && Enabled(s, step) && step.PostRun? && Intent(s, s.worker.run)
    requires step.persistOk || Terminal(s.orchs[s.worker.h].status)
    ensures Ends(s, step, Next(s, step), s.worker.run)
  {
    assert Terminal(Next(s, step).orchs[s.worker.h].status);
  }

  lemma PostRunDrops(s: State, step: Step, r: RunId)
    requires Inv(s) && Enabled(s, step) && step.PostRun?
    requires r in s.pending && r !in Next(s, step).pending
    ensures Ends(s, step, Next(s, step), r)
  {
    assert r == s.worker.run && Intent(s, r);
    if step.persistOk || Terminal(s.orchs[s.worker.h].status) {
      PostRunEnds(s, step);
    }
  }

  lemma ResumeDrops(s: State, step: Step, r: RunId)
    requires Inv(s) && Enabled(s, step) && (step.ResumeCancelCleanup? || step.ResumeLoad?)
    requires r in s.pending && r !in Next(s, step).pending
    ensures Ends(s, step, Next(s, step), r)
  {
  }

  lemma CleanupDrops(s: State, step: Step, r: RunId)
    requires Inv(s) && Enabled(s, step) && step.DeliverCleanup?
    requires r in s.pending && r !in Next(s, step).pending
    ensures Ends(s, step, Next(s, step), r)
  {
  }

  /** Cancel's last step drops only the cancel of its own run, by ending that delivery. */
  lemma FinishDrops(s: State, step: Step, r: RunId)
    requires Inv(s) && Enabled(s, step) && step.CancelFinish?
    requires r in s.pending && r !in Next(s, step).pending
    ensures Ends(s, step, Next(s, step), r) && Next(s, step).disk[r] == Cancelled
  {
    assert r == s.reader.run && s.reader.captured.Some? && step.persistOk;
    FinishEnds(s.(reader := Ready), r, s.reader.captured.value, step.cleared);
  }

  lemma FinishEnds(s: State, r: RunId, h: nat, cleared: bool)
    requires h < |s.orchs|
    ensures var t := Unregister(Terminalise(s, r, h), r, cleared);
            r !in t.active && r in t.disk && t.disk[r] == Cancelled
  {
  }

  lemma OthersKeepPending(s: State, step: Step)
    requires Enabled(s, step)
    requires !step.VerdictStart? && !step.PostRun? && !step.ResumeCancelCleanup? && !step.ResumeLoad?
    requires !step.CancelFinish? && !step.DeliverCleanup?
    ensures s.pending <= Next(s, step).pending
  {
  }

  /** An open cancel is only ever dropped by a step that ends its delivery. */
  lemma DroppedOnlyByEnd(s: State, step: Step, t: State, r: RunId)
    requires Inv(s) && Takes(s, step, t)
    requires r in s.pending && r !in t.pending
    ensures Ends(s, step, t, r)
  {
    match step
    case VerdictStart(_, _, _) => VerdictDrops(s, step, r);
    case PostRun(_, _) => PostRunDrops(s, step, r);
    case ResumeCancelCleanup(_) => ResumeDrops(s, step, r);
    case ResumeLoad(_, _) => ResumeDrops(s, step, r);
    case CancelFinish(_, _) => FinishDrops(s, step, r);
    case DeliverCleanup(_) => CleanupDrops(s, step, r);
    case _ => OthersKeepPending(s, step);
  }

  /** Some step of the execution from `i` up to `j` ends the delivery of `r`. */
  ghost predicate EndsBetween(states: seq<State>, steps: seq<Step>, i: nat, j: nat, r: RunId)
    requires j < |states| && |states| == |steps| + 1
  {
    exists m :: i <= m < j && Ends(states[m], steps[m], states[m + 1], r)
  }

  lemma DroppedAt(states: seq<State>, steps: seq<Step>, m: nat, r: RunId)
    requires Execution(states, steps) && m < |steps|
    requires r in states[m].pending && r !in states[m + 1].pending
    ensures Ends(states[m], steps[m], states[m + 1], r)
  {
    ExecutionInv(states, steps, m);
    assert StepAt(states, steps, m);
    DroppedOnlyByEnd(states[m], steps[m], states[m + 1], r);
  }

  /** An open cancel stays open, and visible, until the delivery ends. */
  lemma {:induction false} CancelHeld(states: seq<State>, steps: seq<Step>, i: nat, j: nat, r: RunId)
    requires Execution(states, steps) && i <= j < |states| && r in states[i].pending
    ensures (r in states[j].pending && Intent(states[j], r)) || EndsBetween(states, steps, i, j, r)
    decreases j
  {
    ExecutionInv(states, steps, j);
    if i < j {
      CancelHeld(states, steps, i, j - 1, r);
      HeldOrEnded(states, steps, i, j - 1, r);
    }
  }

  lemma HeldOrEnded(states: seq<State>, steps: seq<Step>, i: nat, j: nat, r: RunId)
    requires Execution(states, steps) && i <= j && j + 1 < |states|
    requires r in states[j].pending || EndsBetween(states, steps, i, j, r)
    ensures r in states[j + 1].pending || EndsBetween(states, steps, i, j + 1, r)
  {
    if r in states[j].pending && r !in states[j + 1].pending {
      DroppedAt(states, steps, j, r);
      assert Ends(states[j], steps[j], states[j + 1], r);
    }
  }

  /**
    No accepted cancel is lost: once a cancel has written its marker while the
    delivery is open, whatever it found at its lookup, the flag or the marker is
    set in every later state, in every interleaving, up to the step that ends the
    delivery.
   */
  lemma NoAcceptedCancelIsLost(states: seq<State>, steps: seq<Step>, i: nat, j: nat, r: RunId)
    requires Execution(states, steps) && i < j < |states|
    requires steps[i] == CancelPublish && states[i].reader.Flagged? && states[i].reader.run == r
    requires Open(states[i], r)
    ensures Intent(states[j], r) || EndsBetween(states, steps, i + 1, j, r)
  {
    assert StepAt(states, steps, i);
    CancelHeld(states, steps, i + 1, j, r);
  }

  /** While a cancel is requested, the next verdict cancels the delivery instead of running a gate. */
  lemma VerdictHonoursCancel(s: State, step: Step)
    requires Inv(s) && Enabled(s, step) && step.VerdictStart? && Intent(s, step.run)
    ensures var t := Next(s, step);
            && t.worker == Idle && t.workers == s.workers
            && t.orchs[s.active[step.run]].status == Cancelled
            && t.lock == (if step.persistOk && s.lock == Some(s.active[step.run]) then None else s.lock)
            && (if step.persistOk then Ends(s, step, t, step.run) && t.disk[step.run] == Cancelled
                else Intent(t, step.run) && step.run in t.active)
  {
  }

  /** A resume that sees the request can only cancel or fail; it never registers the run or runs a gate. */
  lemma ResumeHonoursCancel(s: State, r: RunId, t: State, step: Step)
    requires Enabled(s, ResumeRead(r)) && Intent(s, r) && !Terminal(s.disk[r])
    requires t.worker == Next(s, ResumeRead(r)).worker
    requires Enabled(t, step) && !ReaderStep(step)
    ensures step == ResumeFail
         || (step == ResumeCancel && r in Next(t, step).disk && Next(t, step).disk[r] == Cancelled)
    ensures Next(t, step).active == t.active && Next(t, step).workers == t.workers
  {
  }

  /** A cancel that finishes has taken effect, or is left for the registered worker or the next resume to see. */
  lemma CancelAnswered(s: State, step: Step)
    requires Inv(s) && Enabled(s, step) && step.CancelFinish? && step.persistOk && s.reader.run in s.pending
    ensures var t, r := Next(s, step), s.reader.run;
            if s.reader.captured.Some? && r !in s.workers then
              && Ends(s, step, t, r) && t.disk[r] == Cancelled
              && t.orchs[s.reader.captured.value].status == Cancelled
              && t.lock == if s.lock == s.reader.captured then None else s.lock
            else r in t.pending && Intent(t, r) && (r in t.workers || s.reader.captured.None?)
  {
    if s.reader.captured.Some? && s.reader.run !in s.workers {
      FinishDrops(s, step, s.reader.run);
    }
  }

  lemma WorkersGrowOnlyHere(s: State, step: Step)
    requires Enabled(s, step) && !step.VerdictStart? && !step.DeliverRegister?
    ensures Next(s, step).workers <= s.workers
  {
    if step.PostRun? {
      AfterRunKeepsWorkers(s, s.worker.run, s.worker.h, s.worker.elsewhere, step.persistOk, step.cleared);
    }
  }

  lemma AfterRunKeepsWorkers(s: State, r: RunId, h: nat, elsewhere: bool, persistOk: bool, cleared: bool)
    requires h < |s.orchs|
    ensures AfterRun(s, r, h, elsewhere, persistOk, cleared).workers == s.workers
  {
  }

  /** No operation starts on a run whose cancel is open. */
  lemma NoOperationStartsWhilePending(s: State, step: Step, r: RunId)
    requires Inv(s) && Enabled(s, step) && r in s.pending && r !in s.workers
    ensures r !in Next(s, step).workers
  {
    if step.VerdictStart? || step.DeliverRegister? {
      assert Intent(s, r);
    } else {
      WorkersGrowOnlyHere(s, step);
    }
  }

  // Ownership.

  lemma WorkersAreRegistered(s: State)
    requires Inv(s)
    ensures s.workers <= s.active.Keys && |s.workers| <= 1
  {
    match s.worker
    case Running(r, _, _) => assert |{r}| == 1;
    case _ =>
  }

  /** Cancel's last step, with the run it addresses not being worked on, leaves every other run alone. */
  lemma FinishSparesOthers(s: State, r: RunId, h: nat, cleared: bool, q: RunId)
    requires Inv(s) && OrchOf(s, r, h) && q != r && q in s.active
    ensures var t := Unregister(Terminalise(s, r, h), r, cleared);
            && t.workers == s.workers
            && q in t.active && t.active[q] == s.active[q] && t.orchs[t.active[q]] == s.orchs[s.active[q]]
            && Lookup(t.disk, q) == Lookup(s.disk, q)
            && (s.lock == Some(s.active[q]) ==> t.lock == s.lock)
  {
    assert s.orchs[s.active[q]].run == q;
  }

  /**
    Worker ownership: while a run's worker is registered no reader step writes
    its status, in memory or on disk, takes its lock away, or unregisters it.
   */
  lemma ReaderRespectsWorker(s: State, step: Step, q: RunId)
    requires Inv(s) && Enabled(s, step) && ReaderStep(step) && q in s.workers
    ensures var t := Next(s, step);
            && t.workers == s.workers
            && q in t.active && t.active[q] == s.active[q] && t.orchs[t.active[q]] == s.orchs[s.active[q]]
            && Lookup(t.disk, q) == Lookup(s.disk, q)
            && (s.lock == Some(s.active[q]) ==> t.lock == s.lock)
  {
    if step.CancelFinish? && s.reader.captured.Some? && s.reader.run !in s.workers {
      ReadyInv(s);
      FinishSparesOthers(s.(reader := Ready), s.reader.run, s.reader.captured.value, step.cleared, q);
    }
  }

  // Where the protocol stops short.

  predicate Finished(st: Status) {
    st == Complete || st == Stopped
  }

  /** The reader rewrites a finished orchestrator exactly when its lookup came before the delivery was unregistered. */
  lemma FinishedOverwrittenIff(s: State, step: Step, h: nat)
    requires Inv(s) && Enabled(s, step) && ReaderStep(step)
    requires h < |s.orchs| && Finished(s.orchs[h].status)
    ensures Next(s, step).orchs[h].status != s.orchs[h].status <==>
              step.CancelFinish? && s.reader.captured == Some(h) && s.reader.run !in s.workers
  {
    if step.CancelFinish? {
      if s.reader.captured.Some? && s.reader.run !in s.workers {
        OnlyThatOneCancelled(s, s.reader.run, s.reader.captured.value, step.persistOk, step.cleared);
      }
    } else {
      assert Next(s, step).orchs == s.orchs;
    }
  }

  lemma OnlyThatOneCancelled(s: State, r: RunId, c: nat, persistOk: bool, cleared: bool)
    requires c < |s.orchs|
    ensures var cancelled := s.orchs[c := s.orchs[c].(status := Cancelled)];
            && SetStatus(s, c, Cancelled).orchs == cancelled
            && Unregister(Terminalise(s, r, c), r, cleared).orchs == cancelled
  {
  }

  /** The reader's last step writes the record of `r`. */
  predicate Overwrites(s: State, step: Step, r: RunId) {
    && step.CancelFinish? && step.persistOk
    && s.reader.Published? && s.reader.run == r && s.reader.captured.Some?
  }

  /** The same for the record on disk. */
  lemma FinishedRecordOverwrittenIff(s: State, step: Step, r: RunId)
    requires Inv(s) && Enabled(s, step) && ReaderStep(step)
    requires r in s.disk && Finished(s.disk[r])
    ensures r in Next(s, step).disk
    ensures Next(s, step).disk[r] != s.disk[r] <==> Overwrites(s, step, r) && r !in s.workers
    ensures Next(s, step).disk[r] != s.disk[r] ==> Next(s, step).disk[r] == Cancelled
  {
    if !step.CancelFinish? {
      assert Next(s, step).disk == s.disk;
    }
  }

  /** The delivery is over: its record is terminal, it is not registered, and the worker is elsewhere. */
  predicate Settled(s: State, r: RunId) {
    r in s.disk && Terminal(s.disk[r]) && r !in s.active && (s.worker.Idle? || s.worker.run != r)
  }

  /** The reader is in the middle of a cancel that found the run registered. */
  predicate Holding(reader: Reader, r: RunId) {
    !reader.Ready? && reader.run == r && reader.captured.Some?
  }

  /**
    Once a delivery is over, a step other than a resume of it leaves it so, and
    writes its record only to finish a cancel.
   */
  lemma SettledWorkerStep(s: State, step: Step, r: RunId)
    requires Inv(s) && Enabled(s, step) && Settled(s, r) && step != ResumeRead(r) && !ReaderStep(step)
    ensures Settled(Next(s, step), r) && Next(s, step).disk[r] == s.disk[r]
  {
    if step.PostRun? {
      SettledAfterRun(s, s.worker.run, s.worker.h, s.worker.elsewhere, step.persistOk, step.cleared, r);
    } else if step.VerdictStart? {
      SettledVerdict(s, step, r);
    }
  }

  predicate ResumeStep(step: Step) {
    step.ResumeRead? || step.ResumeFail? || step.ResumeCancel? || step.ResumeCancelCleanup? || step.ResumeLoad?
  }

  lemma SettledVerdict(s: State, step: Step, r: RunId)
    requires Inv(s) && Enabled(s, step) && Settled(s, r) && step.VerdictStart?
    ensures Settled(Next(s, step), r) && Next(s, step).disk[r] == s.disk[r]
  {
    OthersKept(s, step.run, s.active[step.run], step.cleared, r);
  }

  lemma SettledAfterRun(s: State, q: RunId, h: nat, elsewhere: bool, persistOk: bool, cleared: bool, r: RunId)
    requires h < |s.orchs| && q != r && r in s.disk && r !in s.active
    ensures var t := AfterRun(s, q, h, elsewhere, persistOk, cleared);
            r in t.disk && t.disk[r] == s.disk[r] && r !in t.active
  {
    if Intent(s, q) && !Terminal(s.orchs[h].status) && persistOk {
      OthersKept(s, q, h, cleared, r);
    }
  }

  lemma OthersKept(s: State, q: RunId, h: nat, cleared: bool, r: RunId)
    requires h < |s.orchs| && q != r && r in s.disk && r !in s.active
    ensures var t := Unregister(Terminalise(s, q, h), q, cleared);
            r in t.disk && t.disk[r] == s.disk[r] && r !in t.active
  {
  }

  lemma SettledReaderStep(s: State, step: Step, r: RunId)
    requires Inv(s) && Enabled(s, step) && Settled(s, r) && ReaderStep(step)
    ensures Settled(Next(s, step), r)
    ensures Next(s, step).disk[r] == if Overwrites(s, step, r) then Cancelled else s.disk[r]
    ensures Holding(Next(s, step).reader, r) ==> Holding(s.reader, r)
  {
    if step.CancelFinish? {
      if s.reader.captured.Some? && s.reader.run !in s.workers {
        SettledFinish(s.(reader := Ready), s.reader.run, s.reader.captured.value, step.cleared, r);
      }
    } else {
      assert Next(s, step).disk == s.disk && Next(s, step).active == s.active && Next(s, step).worker == s.worker;
    }
  }

  lemma SettledFinish(s: State, q: RunId, h: nat, cleared: bool, r: RunId)
    requires h < |s.orchs| && Settled(s, r)
    ensures var t := Unregister(Terminalise(s, q, h), q, cleared);
            && Settled(t, r) && t.disk[r] == (if q == r then Cancelled else s.disk[r])
            && t.worker == s.worker && t.reader == s.reader
  {
  }

  lemma SettledAt(states: seq<State>, steps: seq<Step>, m: nat, r: RunId)
    requires Execution(states, steps) && m < |steps| && Settled(states[m], r) && steps[m] != ResumeRead(r)
    ensures Settled(states[m + 1], r)
    ensures states[m + 1].disk[r] == if Overwrites(states[m], steps[m], r) then Cancelled else states[m].disk[r]
    ensures Holding(states[m + 1].reader, r) ==> Holding(states[m].reader, r)
  {
    ExecutionInv(states, steps, m);
    assert StepAt(states, steps, m);
    if ReaderStep(steps[m]) {
      SettledReaderStep(states[m], steps[m], r);
    } else {
      SettledWorkerStep(states[m], steps[m], r);
      WorkerKeepsReader(states[m], steps[m]);
    }
  }

  /** A reader step between `i` and `j` writes the record of `r`. */
  ghost predicate OverwrittenBetween(states: seq<State>, steps: seq<Step>, i: nat, j: nat, r: RunId)
    requires j < |states| && |states| == |steps| + 1
  {
    exists m :: i <= m < j && Overwrites(states[m], steps[m], r)
  }

  lemma OneStepMore(states: seq<State>, steps: seq<Step>, i: nat, j: nat, r: RunId)
    requires j + 1 < |states| && |states| == |steps| + 1 && i <= j
    ensures OverwrittenBetween(states, steps, i, j + 1, r) <==>
              OverwrittenBetween(states, steps, i, j, r) || Overwrites(states[j], steps[j], r)
    ensures Overwrites(states[j], steps[j], r) ==> Holding(states[j].reader, r)
  {
  }

  lemma RecordStep(states: seq<State>, steps: seq<Step>, i: nat, j: nat, r: RunId)
    requires Execution(states, steps) && i <= j < |steps| && steps[j] != ResumeRead(r)
    requires Settled(states[i], r) && Settled(states[j], r)
    requires states[j].disk[r] == if OverwrittenBetween(states, steps, i, j, r) then Cancelled else states[i].disk[r]
    requires OverwrittenBetween(states, steps, i, j, r) || Holding(states[j].reader, r) ==> Holding(states[i].reader, r)
    ensures Settled(states[j + 1], r)
    ensures states[j + 1].disk[r] ==
              if OverwrittenBetween(states, steps, i, j + 1, r) then Cancelled else states[i].disk[r]
    ensures OverwrittenBetween(states, steps, i, j + 1, r) || Holding(states[j + 1].reader, r) ==>
              Holding(states[i].reader, r)
  {
    SettledAt(states, steps, j, r);
    OneStepMore(states, steps, i, j, r);
  }

  /**
    In any execution, the record of a delivery that is over and not resumed is
    overwritten if and only if a cancel finishes on it, and that cancel had found
    the run registered before the delivery was over.
   */
  lemma {:induction false} RecordOverwritten(states: seq<State>, steps: seq<Step>, i: nat, j: nat, r: RunId)
    requires Execution(states, steps) && i <= j < |states|
    requires Settled(states[i], r) && Finished(states[i].disk[r])
    requires forall m :: i <= m < j ==> steps[m] != ResumeRead(r)
    ensures Settled(states[j], r)
    ensures states[j].disk[r] == if OverwrittenBetween(states, steps, i, j, r) then Cancelled else states[i].disk[r]
    ensures OverwrittenBetween(states, steps, i, j, r) || Holding(states[j].reader, r) ==> Holding(states[i].reader, r)
    decreases j
  {
    if i < j {
      RecordOverwritten(states, steps, i, j - 1, r);
      RecordStep(states, steps, i, j - 1, r);
    }
  }

  /** And the run was registered when that cancel looked it up. */
  lemma {:induction false} HeldSinceLookup(states: seq<State>, steps: seq<Step>, i: nat, r: RunId) returns (l: nat)
    requires Execution(states, steps) && i < |states| && Holding(states[i].reader, r)
    ensures l < i && steps[l] == CancelLookup(r)
    ensures r in states[l].active && Some(states[l].active[r]) == states[i].reader.captured
    ensures forall m :: l < m <= i ==> Holding(states[m].reader, r)
    decreases i
  {
    assert i > 0;
    var before, step := states[i - 1], steps[i - 1];
    assert StepAt(states, steps, i - 1);
    if step == CancelLookup(r) {
      l := i - 1;
      LookupFinds(before, r);
    } else {
      HoldingBefore(before, step, r);
      l := HeldSinceLookup(states, steps, i - 1, r);
    }
  }

  lemma LookupFinds(s: State, r: RunId)
    requires Enabled(s, CancelLookup(r)) && Holding(Next(s, CancelLookup(r)).reader, r)
    ensures r in s.active && Some(s.active[r]) == Next(s, CancelLookup(r)).reader.captured
  {
  }

  lemma HoldingBefore(s: State, step: Step, r: RunId)
    requires Enabled(s, step) && step != CancelLookup(r) && Holding(Next(s, step).reader, r)
    ensures Holding(s.reader, r) && s.reader.captured == Next(s, step).reader.captured
  {
    if !ReaderStep(step) {
      WorkerKeepsReader(s, step);
    }
  }

  lemma WorkerKeepsReader(s: State, step: Step)
    requires Enabled(s, step) && !ReaderStep(step)
    ensures Next(s, step).reader == s.reader
  {
    if step.PostRun? {
      AfterRunKeepsReader(s, s.worker.run, s.worker.h, s.worker.elsewhere, step.persistOk, step.cleared);
    }
  }

  lemma AfterRunKeepsReader(s: State, r: RunId, h: nat, elsewhere: bool, persistOk: bool, cleared: bool)
    requires h < |s.orchs|
    ensures AfterRun(s, r, h, elsewhere, persistOk, cleared).reader == s.reader
  {
  }

  /** The state in which `r` has completed and a cancel that looked it up earlier is still under way. */
  function CompletedMidCancel(r: RunId): State {
    State(map[], {}, map[], {}, map[r := Complete], {r}, [Orch(r, Complete)], None, Idle, Looked(r, Some(0)), {})
  }

  /** A first delivery under way, with a cancel that has just looked it up. */
  function LookedUp(r: RunId): State {
    State(map[r := 0], {r}, map[r := false], {}, map[], {}, [Orch(r, Active)], None,
          Running(r, 0, Deliver), Looked(r, Some(0)), {})
  }

  lemma DeliveryLookedUp(r: RunId) returns (states: seq<State>, steps: seq<Step>)
    ensures Execution(states, steps) && states[|steps|] == LookedUp(r)
  {
    var s0 := State(map[], {}, map[], {}, map[], {}, [], None, Idle, Ready, {});
    steps := [DeliverCheck(r), DeliverPrepare(true), DeliverRegister, CancelLookup(r)];
    var s1 := s0.(worker := Checked(r));
    var s2 := s1.(flags := map[r := false], worker := Prepared(r));
    var s3 := LookedUp(r).(reader := Ready);
    assert Takes(s0, steps[0], s1);
    assert Takes(s1, steps[1], s2);
    assert Takes(s2, steps[2], s3);
    assert Takes(s3, steps[3], LookedUp(r));
    states := [s0, s1, s2, s3, LookedUp(r)];
  }

  lemma CompletesMidCancel(r: RunId) returns (states: seq<State>, steps: seq<Step>)
    ensures Path(states, steps) && states[0] == LookedUp(r) && states[|steps|] == CompletedMidCancel(r)
  {
    var s0 := LookedUp(r);
    steps := [Operate(Complete, true, false, false), Return(false), PostRun(true, true)];
    var s1 := s0.(orchs := [Orch(r, Complete)], disk := map[r := Complete], dirs := {r});
    var s2 := s1.(workers := {}, worker := Returned(r, 0, Deliver, false));
    assert Takes(s0, steps[0], s1);
    assert Takes(s1, steps[1], s2);
    assert Takes(s2, steps[2], CompletedMidCancel(r));
    states := [s0, s1, s2, CompletedMidCancel(r)];
  }

  lemma CancelFinishes(r: RunId, s: State, t: State)
    requires s == CompletedMidCancel(r).(flags := map[r := true], markers := {r}, reader := Published(r, Some(0)))
    requires t == s.(orchs := [Orch(r, Cancelled)], disk := map[r := Cancelled], flags := map[], markers := {},
                     reader := Ready)
    ensures Takes(s, CancelFinish(true, true), t)
  {
  }

  lemma CancelAfterCompletion(r: RunId) returns (states: seq<State>, steps: seq<Step>)
    ensures Path(states, steps) && states[0] == CompletedMidCancel(r) && |steps| > 0
    ensures var last := states[|steps|]; last.disk == map[r := Cancelled] && last.orchs == [Orch(r, Cancelled)]
  {
    var s0 := CompletedMidCancel(r);
    steps := [CancelFlag, CancelPublish, CancelFinish(true, true)];
    var s1 := s0.(flags := map[r := true], reader := Flagged(r, Some(0), None));
    var s2 := s1.(markers := {r}, reader := Published(r, Some(0)));
    var s3 := s2.(orchs := [Orch(r, Cancelled)], disk := map[r := Cancelled], flags := map[], markers := {},
      reader := Ready);
    assert Takes(s0, CancelFlag, s1);
    assert Takes(s1, CancelPublish, s2);
    CancelFinishes(r, s2, s3);
    states := [s0, s1, s2, s3];
  }

  lemma JoinPaths(first: seq<State>, firstSteps: seq<Step>, second: seq<State>, secondSteps: seq<Step>)
    requires Path(first, firstSteps) && Path(second, secondSteps) && first[|firstSteps|] == second[0]
    ensures Path(first + second[1..], firstSteps + secondSteps)
    ensures (first + second[1..])[|firstSteps| + |secondSteps|] == second[|secondSteps|]
  {
    var states, steps, n := first + second[1..], firstSteps + secondSteps, |firstSteps|;
    forall i | 0 <= i < |steps|
      ensures StepAt(states, steps, i)
    {
      if i < n {
        assert StepAt(first, firstSteps, i);
      } else {
        assert StepAt(second, secondSteps, i - n);
      }
    }
  }

  /**
    So a terminal status is not final: a delivery that completed during a late
    cancel ends up recorded as cancelled.
   */
  lemma LateCancelOverwritesComplete(r: RunId) returns (states: seq<State>, steps: seq<Step>, done: nat)
    ensures Execution(states, steps) && done < |steps|
    ensures states[done].disk == map[r := Complete] && states[done].active == map[]
    ensures states[|steps|].disk == map[r := Cancelled]
  {
    var first, firstSteps := DeliveryLookedUp(r);
    var second, secondSteps := CompletesMidCancel(r);
    var third, thirdSteps := CancelAfterCompletion(r);
    JoinPaths(first, firstSteps, second, secondSteps);
    done := |firstSteps| + |secondSteps|;
    JoinPaths(first + second[1..], firstSteps + secondSteps, third, thirdSteps);
    states := first + second[1..] + third[1..];
    steps := firstSteps + secondSteps + thirdSteps;
  }
}
