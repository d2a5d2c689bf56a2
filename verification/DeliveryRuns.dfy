/**
  What an open cancel leads to over whole executions of the protocol, and what
  a cancel leaves behind that looked its run up before it was resumed.
 */
module DeliveryRuns {
  import opened Wrappers
  import opened Collections
  import opened DeliveryCancel

  // ---------------------------------------------------------------------------
  // Open cancels are cancels of open deliveries
  // ---------------------------------------------------------------------------

  /** Every open cancel is one of a delivery that is open, or whose resume has just recorded the cancellation. */
  ghost predicate PendingOpen(s: State) {
    forall r :: r in s.pending ==> Open(s, r) || s.worker == ResumeCancelled(r)
  }

  /** Cancelling and forgetting one run leaves the others as they were. */
  lemma EndedOpen(s: State, r: RunId, h: nat, cleared: bool)
    requires h < |s.orchs| && PendingOpen(s)
    ensures PendingOpen(Unregister(Terminalise(s, r, h), r, cleared))
    ensures Unregister(Terminalise(s, r, h), r, cleared).worker == s.worker
  {
  }

  lemma AfterRunOpen(s: State, r: RunId, h: nat, elsewhere: bool, persistOk: bool, cleared: bool)
    requires h < |s.orchs| && PendingOpen(s) && !s.worker.ResumeCancelled?
    ensures PendingOpen(AfterRun(s, r, h, elsewhere, persistOk, cleared).(worker := Idle))
  {
    if Intent(s, r) && !Terminal(s.orchs[h].status) && persistOk {
      EndedOpen(s, r, h, cleared);
    }
  }

  lemma VerdictOpen(s: State, step: Step)
    requires Inv(s) && Enabled(s, step) && PendingOpen(s) && step.VerdictStart?
    ensures PendingOpen(Next(s, step))
  {
    if Intent(s, step.run) && step.persistOk {
      EndedOpen(s, step.run, s.active[step.run], step.cleared);
    }
  }

  lemma ReaderOpen(s: State, step: Step)
    requires Inv(s) && Enabled(s, step) && PendingOpen(s) && ReaderStep(step)
    ensures PendingOpen(Next(s, step))
  {
    if step.CancelFinish? {
      if s.reader.captured.Some? && s.reader.run !in s.workers {
        EndedOpen(s.(reader := Ready), s.reader.run, s.reader.captured.value, step.cleared);
      }
    } else {
      var t := Next(s, step);
      assert t.active == s.active && t.disk == s.disk && t.worker == s.worker;
    }
  }

  /** What the orchestrator does keeps its run registered. */
  lemma OperateOpen(s: State, step: Step)
    requires Inv(s) && Enabled(s, step) && PendingOpen(s) && step.Operate?
    ensures PendingOpen(Next(s, step))
  {
    var t := Next(s, step);
    assert t.active == s.active && t.pending == s.pending && t.worker == s.worker;
    assert forall r :: r in s.disk && r != s.worker.run ==> r in t.disk && t.disk[r] == s.disk[r];
  }

  lemma DeliverOpen(s: State, step: Step)
    requires Inv(s) && Enabled(s, step) && PendingOpen(s)
    requires DeliverStep(step)
    ensures PendingOpen(Next(s, step))
  {
  }

  predicate DeliverStep(step: Step) {
    step.DeliverCheck? || step.DeliverPrepare? || step.DeliverAbandon? || step.DeliverRegister? || step.DeliverRaise?
    || step.DeliverCleanup?
  }

  lemma ReturnOpen(s: State, step: Step)
    requires Enabled(s, step) && PendingOpen(s) && (step.Return? || step.VerdictRaise?)
    ensures PendingOpen(Next(s, step))
  {
  }

  lemma StepOpen(s: State, step: Step)
    requires Inv(s) && Enabled(s, step) && PendingOpen(s)
    ensures PendingOpen(Next(s, step))
  {
    if step.PostRun? {
      AfterRunOpen(s, s.worker.run, s.worker.h, s.worker.elsewhere, step.persistOk, step.cleared);
    } else if step.VerdictStart? {
      VerdictOpen(s, step);
    } else if ReaderStep(step) {
      ReaderOpen(s, step);
    } else if DeliverStep(step) {
      DeliverOpen(s, step);
    } else if step.Operate? {
      OperateOpen(s, step);
    } else if !ResumeStep(step) {
      ReturnOpen(s, step);
    }
  }

  /** In every execution the open cancels are cancels of open deliveries. */
  lemma {:induction false} OpenCancelsAreOfOpenDeliveries(states: seq<State>, steps: seq<Step>, i: nat)
    requires Execution(states, steps) && i < |states|
    ensures PendingOpen(states[i])
    decreases i
  {
    if i > 0 {
      OpenCancelsAreOfOpenDeliveries(states, steps, i - 1);
      ExecutionInv(states, steps, i - 1);
      assert StepAt(states, steps, i - 1);
      StepOpen(states[i - 1], steps[i - 1]);
    }
  }

  // ---------------------------------------------------------------------------
  // The next request cancels
  // ---------------------------------------------------------------------------

  /** While a cancel is open and nothing works on its run, nothing begins to, up to the end of the delivery. */
  lemma {:induction false} NoWorkUntilEnd(states: seq<State>, steps: seq<Step>, i: nat, j: nat, r: RunId)
    requires Execution(states, steps) && i <= j < |states|
    requires r in states[i].pending && r !in states[i].workers && !EndsBetween(states, steps, i, j, r)
    ensures r in states[j].pending && r !in states[j].workers
    decreases j
  {
    CancelHeld(states, steps, i, j, r);
    if i < j {
      NoWorkUntilEnd(states, steps, i, j - 1, r);
      ExecutionInv(states, steps, j - 1);
      assert StepAt(states, steps, j - 1);
      NoOperationStartsWhilePending(states[j - 1], steps[j - 1], r);
    }
  }

  /** The worker is in the middle of a request on the run. */
  predicate Serves(s: State, r: RunId) {
    !s.worker.Idle? && s.worker.run == r
  }

  /** Step `k` is the worker's first one after step `j`. */
  predicate NextWorkerStep(steps: seq<Step>, j: nat, k: nat) {
    j < k < |steps| && !ReaderStep(steps[k]) && forall m :: j < m < k ==> ReaderStep(steps[m])
  }

  lemma {:induction false} WorkerWaits(states: seq<State>, steps: seq<Step>, j: nat, k: nat)
    requires Path(states, steps) && j < k < |states| && forall m :: j < m < k ==> ReaderStep(steps[m])
    ensures states[k].worker == states[j + 1].worker
    decreases k
  {
    if j + 1 < k {
      WorkerWaits(states, steps, j, k - 1);
      assert StepAt(states, steps, k - 1);
    }
  }

  /** A resume that begins while a cancel is open fails or records the cancellation. */
  lemma ResumeCancels(states: seq<State>, steps: seq<Step>, j: nat, k: nat, r: RunId)
    requires Execution(states, steps) && j < |steps| && steps[j] == ResumeRead(r) && r in states[j].pending
    requires NextWorkerStep(steps, j, k)
    ensures steps[k] == ResumeFail
         || (steps[k] == ResumeCancel && Lookup(states[k + 1].disk, r) == Some(Cancelled))
  {
    ExecutionInv(states, steps, j);
    OpenCancelsAreOfOpenDeliveries(states, steps, j);
    assert StepAt(states, steps, j) && StepAt(states, steps, k);
    WorkerWaits(states, steps, j, k);
    assert Intent(states[j], r);
    ResumeHonoursCancel(states[j], r, states[k], steps[k]);
  }

  /** And then ends the delivery. */
  lemma CancelledResumeEnds(states: seq<State>, steps: seq<Step>, k: nat, l: nat, r: RunId)
    requires Execution(states, steps) && k < |steps| && steps[k] == ResumeCancel && Serves(states[k], r)
    requires NextWorkerStep(steps, k, l)
    ensures steps[l].ResumeCancelCleanup? && Ends(states[l], steps[l], states[l + 1], r)
  {
    assert StepAt(states, steps, k) && StepAt(states, steps, l);
    WorkerWaits(states, steps, k, l);
    ExecutionInv(states, steps, l);
  }

  /** The verdict at `j` ends the delivery as cancelled, or could not record that and leaves the cancel open. */
  predicate VerdictCancels(states: seq<State>, steps: seq<Step>, j: nat, r: RunId)
    requires j < |steps| && |states| == |steps| + 1
  {
    && r in states[j].active && states[j].active[r] < |states[j + 1].orchs|
    && states[j + 1].orchs[states[j].active[r]].status == Cancelled
    && r !in states[j + 1].workers
    && if steps[j].VerdictStart? && steps[j].persistOk
       then Ends(states[j], steps[j], states[j + 1], r) && Lookup(states[j + 1].disk, r) == Some(Cancelled)
       else r in states[j + 1].pending
  }

  /**
    Once a cancel is open on a run that no worker is registered for, as when a
    verdict on it has raised, no gate of it runs any more: the next verdict ends
    the delivery as cancelled, or fails to record that; the next resume records
    the cancellation, or fails.
   */
  lemma NextRequestCancels(states: seq<State>, steps: seq<Step>, i: nat, j: nat, r: RunId)
    requires Execution(states, steps) && i <= j < |steps|
    requires r in states[i].pending && r !in states[i].workers && !EndsBetween(states, steps, i, j, r)
    ensures forall m :: i <= m <= j ==> r !in states[m].workers
    ensures steps[j].VerdictStart? && steps[j].run == r ==> VerdictCancels(states, steps, j, r)
    ensures steps[j] == ResumeRead(r) ==>
              forall k: nat :: NextWorkerStep(steps, j, k) ==>
                || steps[k] == ResumeFail
                || (steps[k] == ResumeCancel && Lookup(states[k + 1].disk, r) == Some(Cancelled))
  {
    forall m | i <= m <= j
      ensures r !in states[m].workers && r in states[m].pending
    {
      NoWorkUntilEnd(states, steps, i, m, r);
    }
    if steps[j].VerdictStart? && steps[j].run == r {
      ExecutionInv(states, steps, j);
      assert StepAt(states, steps, j);
      assert Intent(states[j], r);
      VerdictHonoursCancel(states[j], steps[j]);
    }
    if steps[j] == ResumeRead(r) {
      forall k: nat | NextWorkerStep(steps, j, k)
        ensures steps[k] == ResumeFail
             || (steps[k] == ResumeCancel && Lookup(states[k + 1].disk, r) == Some(Cancelled))
      {
        ResumeCancels(states, steps, j, k, r);
      }
    }
  }

  // ---------------------------------------------------------------------------
  // What is left behind
  // ---------------------------------------------------------------------------

  /** A cancel that cannot write its marker takes its flag back: the sidecar is as it was before the request. */
  lemma FailedCancelLeavesNoTrace(s: State, t: State, u: State, v: State, r: RunId)
    requires Takes(s, CancelLookup(r), t) && Takes(t, CancelFlag, u) && Takes(u, CancelMarkerFails, v)
    ensures v == s
  {
    assert v.flags == s.flags;
  }

  /** A cancel of a run that is not registered is refused once the delivery is over. */
  lemma LateCancelRefused(s: State, r: RunId)
    requires r !in s.active && r in s.disk && s.disk[r] in {Complete, Stopped, Cancelled}
    ensures !Enabled(s, CancelLookup(r))
  {
  }

  /** The orchestrator on whose behalf a step may release the delivery lock. */
  predicate MayRelease(s: State, step: Step, h: nat) {
    match step
    case VerdictStart(r, _, _) => r in s.active && s.active[r] == h
    case Operate(_, _, _, _) => s.worker.Running? && s.worker.h == h
    case PostRun(_, _) => s.worker.Returned? && s.worker.h == h
    case DeliverCleanup(_) => s.worker.Raised? && s.worker.h == h
    case CancelFinish(_, _) => s.reader.Published? && s.reader.captured == Some(h)
    case _ => false
  }

  /** The lock is taken only when it is free, and released only on behalf of its holder. */
  lemma LockIsRespected(s: State, step: Step, h: nat)
    requires Enabled(s, step) && s.lock == Some(h) && Next(s, step).lock != s.lock
    ensures Next(s, step).lock == None && MayRelease(s, step, h)
  {
    if step.PostRun? {
      AfterRunLock(s, s.worker.run, s.worker.h, s.worker.elsewhere, step.persistOk, step.cleared);
    } else if step.VerdictStart? || step.CancelFinish? {
      CancellationLock(s, step, h);
    } else {
      assert step.Operate? || step.DeliverCleanup? || step.ResumeLoad?;
    }
  }

  /** No run is taken up again while an orchestrator holds the lock, be it to go on or to be cancelled. */
  lemma ResumeNeedsLock(s: State, step: Step, r: RunId)
    requires Enabled(s, step) && !ReaderStep(step) && Serves(s, r)
    requires s.worker.Resuming? && ((r !in s.active && r in Next(s, step).active) || step == ResumeCancel)
    ensures s.lock == None
  {
  }

  lemma CancellationLock(s: State, step: Step, h: nat)
    requires Enabled(s, step) && s.lock == Some(h) && Next(s, step).lock != s.lock
    requires step.VerdictStart? || step.CancelFinish?
    ensures Next(s, step).lock == None && MayRelease(s, step, h)
  {
  }

  lemma AfterRunLock(s: State, r: RunId, h: nat, elsewhere: bool, persistOk: bool, cleared: bool)
    requires h < |s.orchs|
    ensures AfterRun(s, r, h, elsewhere, persistOk, cleared).lock == s.lock
         || (s.lock == Some(h) && AfterRun(s, r, h, elsewhere, persistOk, cleared).lock == None)
  {
  }

  /**
    Where the check after a run cannot write the cancellation, the orchestrator is
    cancelled in memory only: it stays registered with its request, and the lock and
    the record are as they were.
   */
  lemma UnwrittenCancellation(s: State, step: Step)
    requires Enabled(s, step) && step.PostRun? && !step.persistOk
    requires Intent(s, s.worker.run) && !Terminal(s.orchs[s.worker.h].status)
    ensures var t := Next(s, step);
            && t.orchs[s.worker.h].status == Cancelled
            && t.active == s.active && t.flags == s.flags && t.markers == s.markers
            && t.disk == s.disk && t.lock == s.lock
  {
  }

  /** A delivery whose provider cannot be built leaves its flag, for the next attempt to find, and nothing else. */
  lemma AbandonedDelivery(s: State, step: Step, t: State, u: State)
    requires s.worker.Checked? && step.DeliverPrepare? && Takes(s, step, t) && Takes(t, DeliverAbandon, u)
    ensures var r := s.worker.run;
            && u.worker == Idle && u.active == s.active && u.disk == s.disk && u.lock == s.lock
            && u.flags == (if r in s.flags then s.flags else s.flags[r := false])
            && u.markers == (if step.cleared then s.markers - {r} else s.markers)
  {
  }

  /** Whether the step deletes the marker, where it ends the delivery. */
  predicate DeletesMarker(step: Step) {
    match step
    case DeliverCleanup(cleared) => cleared
    case VerdictStart(_, _, cleared) => cleared
    case PostRun(_, cleared) => cleared
    case ResumeCancelCleanup(cleared) => cleared
    case ResumeLoad(_, cleared) => cleared
    case CancelFinish(_, cleared) => cleared
    case _ => false
  }

  /**
    A run that is taken out of the registry has no flag any more, and no marker
    unless it could not be deleted, or the delivery never began because another
    one holds the workspace: a request does not outlive its delivery.
   */
  lemma EndForgetsRequest(s: State, step: Step, r: RunId)
    requires Inv(s) && Enabled(s, step) && r in s.active && r !in Next(s, step).active
    ensures r !in Next(s, step).flags && r !in Next(s, step).pending
    ensures DeletesMarker(step) && !(step.PostRun? && s.worker.elsewhere) ==> !Intent(Next(s, step), r)
    ensures step.PostRun? && s.worker.elsewhere && !Intent(s, r) ==> Next(s, step).markers == s.markers
  {
    if step.PostRun? {
      AfterRunForgets(s, s.worker.run, s.worker.h, s.worker.elsewhere, step.persistOk, step.cleared, r);
    } else if step.VerdictStart? {
      VerdictForgets(s, step, r);
    } else if step.CancelFinish? {
      FinishForgets(s, step, r);
    } else {
      OthersForget(s, step, r);
    }
  }

  lemma OthersForget(s: State, step: Step, r: RunId)
    requires Enabled(s, step) && !step.PostRun? && !step.VerdictStart? && !step.CancelFinish?
    requires r in s.active && r !in Next(s, step).active
    ensures r !in Next(s, step).flags && r !in Next(s, step).pending
    ensures DeletesMarker(step) ==> !Intent(Next(s, step), r)
  {
    assert step.DeliverCleanup? || step.ResumeCancelCleanup? || step.ResumeLoad?;
  }

  lemma VerdictForgets(s: State, step: Step, r: RunId)
    requires Enabled(s, step) && step.VerdictStart? && r in s.active && r !in Next(s, step).active
    ensures r !in Next(s, step).flags && r !in Next(s, step).pending
    ensures step.cleared ==> !Intent(Next(s, step), r)
  {
  }

  lemma FinishForgets(s: State, step: Step, r: RunId)
    requires Enabled(s, step) && step.CancelFinish? && r in s.active && r !in Next(s, step).active
    ensures r !in Next(s, step).flags && r !in Next(s, step).pending
    ensures step.cleared ==> !Intent(Next(s, step), r)
  {
  }

  lemma AfterRunForgets(s: State, q: RunId, h: nat, elsewhere: bool, persistOk: bool, cleared: bool, r: RunId)
    requires h < |s.orchs| && r in s.active && r !in AfterRun(s, q, h, elsewhere, persistOk, cleared).active
    ensures var t := AfterRun(s, q, h, elsewhere, persistOk, cleared);
            && r !in t.flags && r !in t.pending
            && (cleared && !elsewhere ==> !Intent(t, r))
            && (elsewhere && !Intent(s, r) ==> t.markers == s.markers)
  {
  }

  /**
    A first delivery starts with no request on it, unless a flag was already set or
    the marker an earlier sidecar left could not be deleted.
   */
  lemma DeliveryStartsUnrequested(s: State, step: Step)
    requires Inv(s) && Enabled(s, step) && step.DeliverPrepare?
    ensures var t, r := Next(s, step), s.worker.run;
            && r in t.flags && t.worker == Prepared(r)
            && (Intent(t, r) <==> (r in s.flags && s.flags[r]) || (r in s.markers && !step.cleared))
  {
  }

  /** A start that raised leaves the run unregistered, and its lock free. */
  lemma RaisedStartIsCleanedUp(s: State, step: Step)
    requires Inv(s) && Enabled(s, step) && step.DeliverCleanup?
    ensures var t, r, h := Next(s, step), s.worker.run, s.worker.h;
            && t.worker == Idle && r !in t.active && r !in t.flags
            && t.lock == if s.lock == Some(h) then None else s.lock
  {
  }

  /**
    A resume that was not cancelled restores the delivery: a new orchestrator with
    the recorded status, registered and holding the lock, and the record as it was;
    or, when the delivery turns out to be over, that is on record and nothing is
    registered.
   */
  lemma ResumeRestores(s: State, step: Step)
    requires Inv(s) && Enabled(s, step) && step.ResumeLoad?
    ensures var t, r := Next(s, step), s.worker.run;
            && t.worker == Idle && t.workers == {} && r in t.disk
            && (if r in t.active then
                  && t.orchs[t.active[r]] == Orch(r, s.disk[r]) && !Terminal(s.disk[r])
                  && t.disk == s.disk && t.lock == Some(t.active[r])
                else t.disk[r] in {Complete, Stopped} && (t.disk[r] == s.disk[r] || step.recovered == Some(t.disk[r])))
  {
  }

  // ---------------------------------------------------------------------------
  // A cancel whose lookup has gone stale
  // ---------------------------------------------------------------------------

  /**
    The reader takes a run out of the registry whose orchestrator it does not
    cancel exactly when cancel's last step succeeds for another orchestrator than
    the registered one, with no worker on the run.  The record then says
    cancelled, and the orchestrator keeps its status and the lock.
   */
  lemma DropsUncancelledIff(s: State, step: Step, r: RunId)
    requires Inv(s) && Enabled(s, step) && ReaderStep(step) && r in s.active
    ensures var t, h := Next(s, step), s.active[r];
            && (r !in t.active && t.orchs[h].status != Cancelled <==>
                  && Overwrites(s, step, r) && r !in s.workers
                  && s.reader.captured != Some(h) && s.orchs[h].status != Cancelled)
            && (r !in t.active && t.orchs[h].status != Cancelled ==>
                  && t.orchs[h] == s.orchs[h] && Lookup(t.disk, r) == Some(Cancelled)
                  && (s.lock == Some(h) ==> t.lock == Some(h)))
  {
    if step.CancelFinish? {
      if s.reader.captured.Some? && s.reader.run !in s.workers {
        OnlyThatOneCancelled(s.(reader := Ready), s.reader.run, s.reader.captured.value, step.persistOk, step.cleared);
      }
    } else {
      assert Next(s, step).active == s.active;
    }
  }

  /** The step starts or resumes the run. */
  predicate Registers(s: State, step: Step, r: RunId) {
    (step.DeliverRegister? || step.ResumeLoad?) && Serves(s, r)
  }

  lemma OnlyTheseRegister(s: State, step: Step, r: RunId)
    requires Enabled(s, step) && !Registers(s, step, r)
    ensures r in Next(s, step).active ==> r in s.active && Next(s, step).active[r] == s.active[r]
  {
    if step.PostRun? {
      AfterRunRegistersNone(s, s.worker.run, s.worker.h, s.worker.elsewhere, step.persistOk, step.cleared, r);
    } else if ReaderStep(step) {
      ReaderRegistersNone(s, step, r);
    } else if ResumeStep(step) {
      ResumeRegisters(s, step, r);
    } else if DeliverStep(step) {
      DeliverRegisters(s, step, r);
    } else {
      OthersRegister(s, step, r);
    }
  }

  lemma AfterRunRegistersNone(s: State, q: RunId, h: nat, elsewhere: bool, persistOk: bool, cleared: bool, r: RunId)
    requires h < |s.orchs|
    ensures var t := AfterRun(s, q, h, elsewhere, persistOk, cleared);
            r in t.active ==> r in s.active && t.active[r] == s.active[r]
  {
  }

  lemma ReaderRegistersNone(s: State, step: Step, r: RunId)
    requires Enabled(s, step) && ReaderStep(step)
    ensures r in Next(s, step).active ==> r in s.active && Next(s, step).active[r] == s.active[r]
  {
  }

  lemma ResumeRegisters(s: State, step: Step, r: RunId)
    requires Enabled(s, step) && !Registers(s, step, r) && ResumeStep(step)
    ensures r in Next(s, step).active ==> r in s.active && Next(s, step).active[r] == s.active[r]
  {
  }

  lemma DeliverRegisters(s: State, step: Step, r: RunId)
    requires Enabled(s, step) && !Registers(s, step, r) && DeliverStep(step)
    ensures r in Next(s, step).active ==> r in s.active && Next(s, step).active[r] == s.active[r]
  {
  }

  lemma OthersRegister(s: State, step: Step, r: RunId)
    requires Enabled(s, step) && (step.VerdictStart? || step.VerdictRaise? || step.Operate? || step.Return?)
    ensures r in Next(s, step).active ==> r in s.active && Next(s, step).active[r] == s.active[r]
  {
  }

  lemma {:induction false} RegisteredSince(states: seq<State>, steps: seq<Step>, l: nat, i: nat, r: RunId, h: nat)
    returns (k: nat)
    requires Execution(states, steps) && l <= i < |states|
    requires Lookup(states[i].active, r) == Some(h) && Lookup(states[l].active, r) != Some(h)
    ensures l <= k < i && Registers(states[k], steps[k], r)
    ensures forall m :: k < m <= i ==> Lookup(states[m].active, r) == Some(h)
    decreases i
  {
    if Lookup(states[i - 1].active, r) == Some(h) {
      k := RegisteredSince(states, steps, l, i - 1, r, h);
    } else {
      k := i - 1;
      assert StepAt(states, steps, k);
      if !Registers(states[k], steps[k], r) {
        OnlyTheseRegister(states[k], steps[k], r);
        assert false;
      }
    }
  }

  /** This needs a start or a resume of the run between the cancel's lookup and its last step. */
  lemma StaleSinceLookup(states: seq<State>, steps: seq<Step>, i: nat, r: RunId) returns (l: nat, k: nat)
    requires Execution(states, steps) && i < |states| && Holding(states[i].reader, r)
    requires r in states[i].active && states[i].reader.captured != Some(states[i].active[r])
    ensures l < k < i && steps[l] == CancelLookup(r)
    ensures Registers(states[k], steps[k], r)
    ensures forall m :: k < m <= i ==> Lookup(states[m].active, r) == Some(states[i].active[r])
  {
    l := HeldSinceLookup(states, steps, i, r);
    k := RegisteredSince(states, steps, l, i, r, states[i].active[r]);
  }

  /** The delivery that the cancel looked up has raised, and the run has been resumed. */
  function Restarted(r: RunId): State {
    State(map[r := 1], {}, map[], {}, map[r := AwaitingVerdict], {r},
          [Orch(r, AwaitingVerdict), Orch(r, AwaitingVerdict)], Some(1), Idle, Looked(r, Some(0)), {})
  }

  /** Between the two: the run is out of the registry and its record says that it awaits a verdict. */
  function CleanedUp(r: RunId): State {
    State(map[], {}, map[], {}, map[r := AwaitingVerdict], {r}, [Orch(r, AwaitingVerdict)], None, Idle,
          Looked(r, Some(0)), {})
  }

  lemma RaisesMidCancel(r: RunId) returns (states: seq<State>, steps: seq<Step>)
    ensures Path(states, steps) && states[0] == LookedUp(r) && states[|steps|] == CleanedUp(r)
  {
    var s0 := LookedUp(r);
    steps := [Operate(AwaitingVerdict, true, true, false), DeliverRaise, DeliverCleanup(true)];
    var s1 := s0.(orchs := [Orch(r, AwaitingVerdict)], disk := map[r := AwaitingVerdict], dirs := {r}, lock := Some(0));
    var s2 := s1.(workers := {}, worker := Raised(r, 0));
    assert Takes(s0, Operate(AwaitingVerdict, true, true, false), s1);
    assert Takes(s1, DeliverRaise, s2);
    StartCleanedUp(r, s2);
    states := [s0, s1, s2, CleanedUp(r)];
  }

  lemma StartCleanedUp(r: RunId, s: State)
    requires s == LookedUp(r).(orchs := [Orch(r, AwaitingVerdict)], disk := map[r := AwaitingVerdict], dirs := {r},
                               lock := Some(0), workers := {}, worker := Raised(r, 0))
    ensures Takes(s, DeliverCleanup(true), CleanedUp(r))
  {
  }

  lemma ResumesMidCancel(r: RunId) returns (states: seq<State>, steps: seq<Step>)
    ensures Path(states, steps) && states[0] == CleanedUp(r) && states[|steps|] == Restarted(r)
  {
    var s0 := CleanedUp(r);
    steps := [ResumeRead(r), ResumeLoad(None, true)];
    var s1 := s0.(worker := Resuming(r, false, AwaitingVerdict));
    assert Takes(s0, steps[0], s1);
    assert Takes(s1, steps[1], Restarted(r));
    states := [s0, s1, Restarted(r)];
  }

  /** The cancel has written its marker. */
  function PublishedLate(r: RunId): State {
    Restarted(r).(flags := map[r := true], markers := {r}, reader := Published(r, Some(0)), pending := {r})
  }

  lemma StaleCancelPublishes(r: RunId) returns (states: seq<State>, steps: seq<Step>)
    ensures Path(states, steps) && states[0] == Restarted(r) && states[|steps|] == PublishedLate(r)
  {
    var s0 := Restarted(r);
    steps := [CancelFlag, CancelPublish];
    var s1 := s0.(flags := map[r := true], reader := Flagged(r, Some(0), None));
    assert Takes(s0, steps[0], s1);
    assert Takes(s1, steps[1], PublishedLate(r));
    states := [s0, s1, PublishedLate(r)];
  }

  /** The orchestrator that the cancel had looked up is cancelled, and the other one still awaits its verdict. */
  function LeftBehind(r: RunId): State {
    State(map[], {}, map[], {}, map[r := Cancelled], {r}, [Orch(r, Cancelled), Orch(r, AwaitingVerdict)], Some(1), Idle,
          Ready, {})
  }

  lemma StaleCancelFinishes(r: RunId)
    ensures Takes(PublishedLate(r), CancelFinish(true, true), LeftBehind(r))
  {
    var s, t := PublishedLate(r), LeftBehind(r);
    var n := Next(s, CancelFinish(true, true));
    assert n.orchs == t.orchs && n.disk == t.disk && n.active == t.active;
    assert n.flags == t.flags && n.markers == t.markers && n.pending == t.pending;
  }

  /**
    An execution in which that happens to an open cancel: the run is cancelled and
    unregistered, but the orchestrator that was registered for it still awaits a
    verdict and holds the lock.
   */
  lemma StaleCancelLeavesOrchestrator(r: RunId) returns (states: seq<State>, steps: seq<Step>)
    ensures Execution(states, steps) && |steps| > 0 && steps[|steps| - 1] == CancelFinish(true, true)
    ensures states[|steps| - 1] == PublishedLate(r) && states[|steps|] == LeftBehind(r)
  {
    var first, firstSteps := DeliveryLookedUp(r);
    var second, secondSteps := RaisesMidCancel(r);
    var third, thirdSteps := ResumesMidCancel(r);
    var fourth, fourthSteps := StaleCancelPublishes(r);
    JoinPaths(first, firstSteps, second, secondSteps);
    JoinPaths(third, thirdSteps, fourth, fourthSteps);
    var start, startSteps := first + second[1..], firstSteps + secondSteps;
    var rest, restSteps := third + fourth[1..], thirdSteps + fourthSteps;
    JoinPaths(start, startSteps, rest, restSteps);
    states, steps := Finish(start + rest[1..], startSteps + restSteps, r);
  }

  lemma Finish(before: seq<State>, beforeSteps: seq<Step>, r: RunId) returns (states: seq<State>, steps: seq<Step>)
    requires Execution(before, beforeSteps) && before[|beforeSteps|] == PublishedLate(r)
    ensures Execution(states, steps) && |steps| > 0 && steps[|steps| - 1] == CancelFinish(true, true)
    ensures states[|steps| - 1] == PublishedLate(r) && states[|steps|] == LeftBehind(r)
  {
    states, steps := before + [LeftBehind(r)], beforeSteps + [CancelFinish(true, true)];
    StaleCancelFinishes(r);
    forall i | 0 <= i < |steps|
      ensures StepAt(states, steps, i)
    {
      if i < |beforeSteps| {
        assert StepAt(before, beforeSteps, i);
      }
    }
  }
}
