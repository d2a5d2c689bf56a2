/**
  The dispatch loop of `run_wave`: level by level, block the tasks that depend
  on a recorded failure, run the others in a pool, and collect one result each.
  What each worker yields and what each wait returns come from outside; the
  order in which finished futures are handled is left open.  The log lists what
  happened to every task, as the progress and audit events announce it.
 */
module WaveDispatch {
  import opened Wrappers
  import opened Collections
  import opened Graphs
  import opened WaveLevels

  /** What a worker's future yields. */
  datatype Outcome =
    | Returned(stepId: Option<string>, status: Option<string>)
    | Malformed              // a record whose "result" is not itself a record, which `_execute_task` never returns
    | Raised(what: string)

  /**
    The pool: what the future of the task at a level and position yields, and
    which of a set of pending positions a wait on them returns, none of them
    when it times out.
   */
  datatype Workers = Workers(outcome: (nat, nat) -> Outcome, ready: (nat, set<nat>) -> set<nat>)

  /** What happened to a scheduled task. */
  datatype Fate = Blocked | TimedOut | Finished(outcome: Outcome)

  datatype Event = Event(level: nat, pos: nat, fate: Fate)

  /** A row of `task_results`, as far as the summary reads it. */
  datatype Entry = Entry(stepId: string, status: Option<string>) | BadEntry

  /** The id the dispatch loop uses for a task; unlike the leveller's it has no positional fallback. */
  function Tid(t: WaveTask): Id {
    if t.task != "" then t.task else t.branch.GetOr("")
  }

  /** A task that names itself, as both task sources produce. */
  predicate Keyed(t: WaveTask) {
    t.task != "" || t.branch.Some?
  }

  function BlockedStep(t: WaveTask): string {
    if t.stepId != "" then t.stepId else Tid(t)
  }

  function PoolStep(t: WaveTask): string {
    if t.stepId != "" then t.stepId else if t.task != "" then t.task else t.branch.GetOr("unknown")
  }

  predicate FailedStatus(status: Option<string>) {
    status == Some("failed") || status == Some("aborted")
  }

  /** The fates that put the task into `aborted_task_ids`. */
  predicate Records(fate: Fate) {
    match fate
    case Blocked => true
    case TimedOut => true
    case Finished(Returned(_, status)) => FailedStatus(status)
    case Finished(_) => false
  }

  /** The id put there. */
  function AbortId(t: WaveTask, fate: Fate): Id {
    if t.task != "" then t.task
    else match fate
      case Blocked => t.branch.GetOr("")
      case TimedOut => t.branch.GetOr(PoolStep(t))
      case Finished(Returned(stepId, _)) => t.branch.GetOr(stepId.GetOr("unknown"))
      case Finished(_) => t.branch.GetOr("unknown")
  }

  /**
    The rows appended to `task_results`.  A malformed record is appended before
    reading its status fails, and the handler then appends a second row.
   */
  function EntriesOf(t: WaveTask, fate: Fate): seq<Entry> {
    match fate
    case Blocked => [Entry(BlockedStep(t), Some("aborted"))]
    case TimedOut => [Entry(PoolStep(t), Some("failed"))]
    case Finished(Returned(stepId, status)) => [Entry(stepId.GetOr("unknown"), status)]
    case Finished(Malformed) => [BadEntry, Entry("unknown", Some("failed"))]
    case Finished(Raised(_)) => [Entry("unknown", Some("failed"))]
  }

  predicate At(levels: seq<seq<WaveTask>>, e: Event) {
    e.level < |levels| && e.pos < |levels[e.level]|
  }

  function TaskAt(levels: seq<seq<WaveTask>>, e: Event): WaveTask
    requires At(levels, e)
  {
    levels[e.level][e.pos]
  }

  ghost predicate AllAt(levels: seq<seq<WaveTask>>, log: seq<Event>) {
    forall n :: 0 <= n < |log| ==> At(levels, log[n])
  }

  /** All the rows, in the order the events happened. */
  function Transcript(levels: seq<seq<WaveTask>>, log: seq<Event>): seq<Entry>
    requires AllAt(levels, log)
  {
    if log == [] then []
    else
      var e := log[|log| - 1];
      Transcript(levels, log[..|log| - 1]) + EntriesOf(TaskAt(levels, e), e.fate)
  }

  /** No task has two events. */
  ghost predicate NoRepeat(log: seq<Event>) {
    forall n, m :: 0 <= n < m < |log| ==> log[n].level != log[m].level || log[n].pos != log[m].pos
  }

  ghost predicate Has(log: seq<Event>, i: nat, j: nat) {
    exists n :: 0 <= n < |log| && log[n].level == i && log[n].pos == j
  }

  /** Every scheduled task has exactly one event. */
  ghost predicate OncePerTask(levels: seq<seq<WaveTask>>, log: seq<Event>) {
    && AllAt(levels, log)
    && NoRepeat(log)
    && forall i, j :: 0 <= i < |levels| && 0 <= j < |levels[i]| ==> Has(log, i, j)
  }

  /** `id` is in `aborted_task_ids` once the events of the log have happened. */
  ghost predicate Aborted(levels: seq<seq<WaveTask>>, log: seq<Event>, id: Id)
    requires AllAt(levels, log)
  {
    exists n :: 0 <= n < |log| && Records(log[n].fate) && AbortId(TaskAt(levels, log[n]), log[n].fate) == id
  }

  /**
    Event `e` is a reason for blocking the task at `(i, j)`: it was recorded before
    that task's turn and is a dependency.
   */
  ghost predicate Causes(levels: seq<seq<WaveTask>>, dag: Graph, e: Event, i: nat, j: nat)
    requires i < |levels| && j < |levels[i]|
  {
    && At(levels, e)
    && (e.level < i || (e.level == i && e.pos < j && e.fate.Blocked?))
    && Records(e.fate)
    && AbortId(TaskAt(levels, e), e.fate) in Deps(dag, Tid(levels[i][j]))
  }

  ghost predicate Caused(levels: seq<seq<WaveTask>>, dag: Graph, log: seq<Event>, i: nat, j: nat)
    requires i < |levels| && j < |levels[i]|
  {
    exists n :: 0 <= n < |log| && Causes(levels, dag, log[n], i, j)
  }

  /** The task of event `n` is blocked exactly when some recorded failure among its dependencies preceded its turn. */
  ghost predicate Decided(levels: seq<seq<WaveTask>>, dag: Graph, log: seq<Event>, n: nat)
    requires n < |log|
  {
    At(levels, log[n]) && (log[n].fate.Blocked? <==> Caused(levels, dag, log, log[n].level, log[n].pos))
  }

  ghost predicate BlockRule(levels: seq<seq<WaveTask>>, dag: Graph, log: seq<Event>) {
    forall n :: 0 <= n < |log| ==> Decided(levels, dag, log, n)
  }

  // ---------------------------------------------------------------------------
  // The loop
  // ---------------------------------------------------------------------------

  /** What holds between any two events: the rows and the aborted ids are those of the log. */
  ghost predicate Progress(levels: seq<seq<WaveTask>>, dag: Graph, log: seq<Event>, results: seq<Entry>,
                           aborted: set<Id>) {
    && AllAt(levels, log)
    && NoRepeat(log)
    && BlockRule(levels, dag, log)
    && results == Transcript(levels, log)
    && (forall id :: id in aborted <==> Aborted(levels, log, id))
  }

  function AddAbort(aborted: set<Id>, t: WaveTask, fate: Fate): set<Id> {
    if Records(fate) then aborted + {AbortId(t, fate)} else aborted
  }

  /**
    An event that decides its own task's blocking correctly, and comes too late to
    bear on earlier ones, can be logged.
   */
  lemma LogEvent(levels: seq<seq<WaveTask>>, dag: Graph, log: seq<Event>, results: seq<Entry>, aborted: set<Id>,
                 e: Event)
    requires Progress(levels, dag, log, results, aborted)
    requires At(levels, e) && !Has(log, e.level, e.pos)
    requires e.fate.Blocked? <==> Caused(levels, dag, log, e.level, e.pos)
    requires forall n :: 0 <= n < |log| ==> !Causes(levels, dag, e, log[n].level, log[n].pos)
    ensures Progress(levels, dag, log + [e], results + EntriesOf(TaskAt(levels, e), e.fate),
                     AddAbort(aborted, TaskAt(levels, e), e.fate))
  {
    var log' := log + [e];
    assert log'[..|log'| - 1] == log;
    RuleKept(levels, dag, log, e);
    forall id
      ensures id in AddAbort(aborted, TaskAt(levels, e), e.fate) <==> Aborted(levels, log', id)
    {
      AbortedAfter(levels, log, e, id);
    }
  }

  lemma RuleKept(levels: seq<seq<WaveTask>>, dag: Graph, log: seq<Event>, e: Event)
    requires AllAt(levels, log) && AllAt(levels, log + [e]) && BlockRule(levels, dag, log)
    requires At(levels, e)
    requires e.fate.Blocked? <==> Caused(levels, dag, log, e.level, e.pos)
    requires forall n :: 0 <= n < |log| ==> !Causes(levels, dag, e, log[n].level, log[n].pos)
    ensures BlockRule(levels, dag, log + [e])
  {
    var log' := log + [e];
    forall n | 0 <= n < |log'|
      ensures Decided(levels, dag, log', n)
    {
      assert n < |log| ==> Decided(levels, dag, log, n) && log'[n] == log[n];
      CausedAfter(levels, dag, log, e, log'[n].level, log'[n].pos);
    }
  }

  lemma CausedAfter(levels: seq<seq<WaveTask>>, dag: Graph, log: seq<Event>, e: Event, i: nat, j: nat)
    requires i < |levels| && j < |levels[i]|
    ensures Caused(levels, dag, log + [e], i, j) <==> Caused(levels, dag, log, i, j) || Causes(levels, dag, e, i, j)
  {
    var log' := log + [e];
    if Caused(levels, dag, log, i, j) {
      var n :| 0 <= n < |log| && Causes(levels, dag, log[n], i, j);
      assert log'[n] == log[n];
    }
    if Causes(levels, dag, e, i, j) {
      assert log'[|log|] == e;
    }
  }

  lemma AbortedAfter(levels: seq<seq<WaveTask>>, log: seq<Event>, e: Event, id: Id)
    requires AllAt(levels, log) && At(levels, e)
    ensures Aborted(levels, log + [e], id) <==>
              Aborted(levels, log, id) || (Records(e.fate) && AbortId(TaskAt(levels, e), e.fate) == id)
  {
    var log' := log + [e];
    assert forall n :: 0 <= n < |log| ==> log'[n] == log[n];
    if Aborted(levels, log, id) {
      var n :| 0 <= n < |log| && Records(log[n].fate) && AbortId(TaskAt(levels, log[n]), log[n].fate) == id;
      assert Records(log'[n].fate);
    }
    if Records(e.fate) && AbortId(TaskAt(levels, e), e.fate) == id {
      assert Records(log'[|log|].fate);
    }
  }

  /** `runnable` is what remains of the first `k` tasks of level `i`: untouched, and with no reason to block. */
  ghost predicate Remaining(levels: seq<seq<WaveTask>>, dag: Graph, log: seq<Event>, i: nat, k: nat, runnable: set<nat>)
    requires i < |levels| && k <= |levels[i]|
  {
    && (forall j :: j in runnable ==> j < k && !Has(log, i, j) && !Caused(levels, dag, log, i, j))
    && (forall j :: 0 <= j < k ==> Has(log, i, j) || j in runnable)
  }

  /** The levels below `i` are done and nothing above it has started. */
  ghost predicate UpTo(levels: seq<seq<WaveTask>>, log: seq<Event>, i: nat) {
    && (forall n :: 0 <= n < |log| ==> log[n].level <= i)
    && (forall l, j :: 0 <= l < i && l < |levels| && 0 <= j < |levels[l]| ==> Has(log, l, j))
  }

  /** So far only blocking, in order, has happened at level `i`. */
  ghost predicate Blocking(log: seq<Event>, i: nat, k: nat) {
    forall n :: 0 <= n < |log| ==> log[n].level < i || (log[n].level == i && log[n].pos < k && log[n].fate.Blocked?)
  }

  lemma HasAfter(log: seq<Event>, e: Event, i: nat, j: nat)
    ensures Has(log + [e], i, j) <==> Has(log, i, j) || (e.level == i && e.pos == j)
  {
    var log' := log + [e];
    if Has(log, i, j) {
      var n :| 0 <= n < |log| && log[n].level == i && log[n].pos == j;
      assert log'[n] == log[n];
    }
    if e.level == i && e.pos == j {
      assert log'[|log|] == e;
    }
  }

  /** The test `blocked_by` decides exactly whether there is a reason to block. */
  lemma HitIsCaused(levels: seq<seq<WaveTask>>, dag: Graph, log: seq<Event>, results: seq<Entry>, aborted: set<Id>,
                    i: nat, j: nat)
    requires Progress(levels, dag, log, results, aborted)
    requires i < |levels| && j < |levels[i]| && Blocking(log, i, j)
    ensures (exists d :: d in Deps(dag, Tid(levels[i][j])) && d in aborted) <==> Caused(levels, dag, log, i, j)
  {
    if d :| d in Deps(dag, Tid(levels[i][j])) && d in aborted {
      var n :| 0 <= n < |log| && Records(log[n].fate) && AbortId(TaskAt(levels, log[n]), log[n].fate) == d;
      assert Causes(levels, dag, log[n], i, j);
    }
    if Caused(levels, dag, log, i, j) {
      var n :| 0 <= n < |log| && Causes(levels, dag, log[n], i, j);
      var id := AbortId(TaskAt(levels, log[n]), log[n].fate);
      assert Aborted(levels, log, id);
    }
  }

  lemma BlockTask(levels: seq<seq<WaveTask>>, dag: Graph, log: seq<Event>, results: seq<Entry>, aborted: set<Id>,
                  i: nat, j: nat, runnable: set<nat>)
    requires Progress(levels, dag, log, results, aborted)
    requires i < |levels| && j < |levels[i]|
    requires UpTo(levels, log, i) && Blocking(log, i, j) && Remaining(levels, dag, log, i, j, runnable)
    requires Caused(levels, dag, log, i, j)
    ensures var e := Event(i, j, Blocked);
            && Progress(levels, dag, log + [e], results + EntriesOf(levels[i][j], Blocked),
                        AddAbort(aborted, levels[i][j], Blocked))
            && UpTo(levels, log + [e], i) && Blocking(log + [e], i, j + 1)
            && Remaining(levels, dag, log + [e], i, j + 1, runnable)
  {
    var e := Event(i, j, Blocked);
    LogEvent(levels, dag, log, results, aborted, e);
    forall l, k
      ensures Has(log + [e], l, k) <==> Has(log, l, k) || (l == i && k == j)
    {
      HasAfter(log, e, l, k);
    }
    forall k | k in runnable
      ensures !Caused(levels, dag, log + [e], i, k)
    {
      CausedAfter(levels, dag, log, e, i, k);
    }
  }

  lemma SettleTask(levels: seq<seq<WaveTask>>, dag: Graph, log: seq<Event>, results: seq<Entry>, aborted: set<Id>,
                   i: nat, j: nat, fate: Fate, pending: set<nat>)
    requires Progress(levels, dag, log, results, aborted)
    requires i < |levels| && j in pending && !fate.Blocked?
    requires UpTo(levels, log, i) && Remaining(levels, dag, log, i, |levels[i]|, pending)
    ensures var e := Event(i, j, fate);
            && Progress(levels, dag, log + [e], results + EntriesOf(levels[i][j], fate),
                        AddAbort(aborted, levels[i][j], fate))
            && UpTo(levels, log + [e], i)
            && Remaining(levels, dag, log + [e], i, |levels[i]|, pending - {j})
  {
    var e := Event(i, j, fate);
    assert forall n :: 0 <= n < |log| ==> log[n].level <= i;
    LogEvent(levels, dag, log, results, aborted, e);
    SettleFrame(levels, dag, log, i, j, fate, pending);
  }

  lemma SettleFrame(levels: seq<seq<WaveTask>>, dag: Graph, log: seq<Event>, i: nat, j: nat, fate: Fate,
                    pending: set<nat>)
    requires i < |levels| && j in pending && !fate.Blocked?
    requires UpTo(levels, log, i) && Remaining(levels, dag, log, i, |levels[i]|, pending)
    ensures UpTo(levels, log + [Event(i, j, fate)], i)
    ensures Remaining(levels, dag, log + [Event(i, j, fate)], i, |levels[i]|, pending - {j})
  {
    var e := Event(i, j, fate);
    forall l, k
      ensures Has(log + [e], l, k) <==> Has(log, l, k) || (l == i && k == j)
    {
      HasAfter(log, e, l, k);
    }
    forall k | k in pending
      ensures !Caused(levels, dag, log + [e], i, k)
    {
      CausedAfter(levels, dag, log, e, i, k);
    }
  }

  /** Of level `i`, only `waiting` have no result yet, and they have no reason to block. */
  ghost predicate Stands(levels: seq<seq<WaveTask>>, dag: Graph, i: nat, waiting: set<nat>, results: seq<Entry>,
                         aborted: set<Id>, log: seq<Event>)
    requires i < |levels|
  {
    && Progress(levels, dag, log, results, aborted)
    && UpTo(levels, log, i)
    && Remaining(levels, dag, log, i, |levels[i]|, waiting)
  }

  /** What a blocking pass over level `i` adds to the log. */
  ghost predicate OnlyBlocks(log0: seq<Event>, log: seq<Event>, i: nat) {
    log0 <= log && forall n :: |log0| <= n < |log| ==> log[n].level == i && log[n].fate == Blocked
  }

  /** The blocking pass has dealt with the first `j` tasks of level `i`. */
  ghost predicate Passing(levels: seq<seq<WaveTask>>, dag: Graph, i: nat, j: nat, runnable: set<nat>,
                          results: seq<Entry>, aborted: set<Id>, log0: seq<Event>, log: seq<Event>)
    requires i < |levels| && j <= |levels[i]|
  {
    && Progress(levels, dag, log, results, aborted)
    && UpTo(levels, log, i) && Blocking(log, i, j)
    && Remaining(levels, dag, log, i, j, runnable)
    && OnlyBlocks(log0, log, i)
  }

  lemma BlockTurn(levels: seq<seq<WaveTask>>, dag: Graph, i: nat, j: nat, runnable: set<nat>, results: seq<Entry>,
                  aborted: set<Id>, log0: seq<Event>, log: seq<Event>)
    requires i < |levels| && j < |levels[i]|
    requires Passing(levels, dag, i, j, runnable, results, aborted, log0, log) && Caused(levels, dag, log, i, j)
    ensures Passing(levels, dag, i, j + 1, runnable, results + EntriesOf(levels[i][j], Blocked),
                    AddAbort(aborted, levels[i][j], Blocked), log0, log + [Event(i, j, Blocked)])
  {
    BlockTask(levels, dag, log, results, aborted, i, j, runnable);
    OneMoreBlocked(log0, log, i, j);
  }

  lemma OneMoreBlocked(log0: seq<Event>, log: seq<Event>, i: nat, j: nat)
    requires OnlyBlocks(log0, log, i)
    ensures OnlyBlocks(log0, log + [Event(i, j, Blocked)], i)
  {
  }

  lemma KeepTask(levels: seq<seq<WaveTask>>, dag: Graph, log: seq<Event>, i: nat, j: nat, runnable: set<nat>)
    requires i < |levels| && j < |levels[i]|
    requires Blocking(log, i, j) && Remaining(levels, dag, log, i, j, runnable)
    requires !Caused(levels, dag, log, i, j)
    ensures Blocking(log, i, j + 1) && Remaining(levels, dag, log, i, j + 1, runnable + {j})
  {
  }

  lemma KeepTurn(levels: seq<seq<WaveTask>>, dag: Graph, i: nat, j: nat, runnable: set<nat>, results: seq<Entry>,
                 aborted: set<Id>, log0: seq<Event>, log: seq<Event>)
    requires i < |levels| && j < |levels[i]|
    requires Passing(levels, dag, i, j, runnable, results, aborted, log0, log) && !Caused(levels, dag, log, i, j)
    ensures Passing(levels, dag, i, j + 1, runnable + {j}, results, aborted, log0, log)
  {
    KeepTask(levels, dag, log, i, j, runnable);
  }

  /** The blocking pass over level `i`. */
  method BlockPass(levels: seq<seq<WaveTask>>, dag: Graph, i: nat, results0: seq<Entry>, aborted0: set<Id>,
                   log0: seq<Event>)
    returns (runnable: set<nat>, results: seq<Entry>, aborted: set<Id>, log: seq<Event>)
    requires i < |levels| && Reached(levels, dag, i, results0, aborted0, log0)
    ensures Stands(levels, dag, i, runnable, results, aborted, log)
    ensures OnlyBlocks(log0, log, i)
  {
    runnable, results, aborted, log := {}, results0, aborted0, log0;
    for j := 0 to |levels[i]|
      invariant Passing(levels, dag, i, j, runnable, results, aborted, log0, log)
    {
      var t := levels[i][j];
      HitIsCaused(levels, dag, log, results, aborted, i, j);
      if exists d :: d in Deps(dag, Tid(t)) && d in aborted {
        BlockTurn(levels, dag, i, j, runnable, results, aborted, log0, log);
        results := results + EntriesOf(t, Blocked);
        aborted := AddAbort(aborted, t, Blocked);
        log := log + [Event(i, j, Blocked)];
      } else {
        KeepTurn(levels, dag, i, j, runnable, results, aborted, log0, log);
        runnable := runnable + {j};
      }
    }
  }

  /** The fate of one of the pending tasks, by what the workers do from here on. */
  function FateOf(w: Workers, i: nat, pending: set<nat>, j: nat): (fate: Fate)
    requires j in pending
    ensures fate == TimedOut || fate == Finished(w.outcome(i, j))
    decreases |pending|
  {
    var done := w.ready(i, pending) * pending;
    if done == {} then TimedOut
    else if j in done then Finished(w.outcome(i, j))
    else
      SmallerSet(pending - done, pending);
      FateOf(w, i, pending - done, j)
  }

  /** The tasks that have left the pool since `log0` are those of `runnable` not pending, each with its fate. */
  ghost predicate Emptied(w: Workers, i: nat, runnable: set<nat>, pending: set<nat>, log0: seq<Event>,
                          log: seq<Event>) {
    && log0 <= log
    && pending <= runnable
    && forall n :: |log0| <= n < |log| ==>
         && log[n].level == i
         && log[n].pos in runnable
         && log[n].fate == FateOf(w, i, runnable, log[n].pos)
  }

  /** Waiting once does not change what becomes of the tasks that stay pending. */
  ghost predicate SameFates(w: Workers, i: nat, runnable: set<nat>, pending: set<nat>) {
    pending <= runnable && forall j :: j in pending ==> FateOf(w, i, runnable, j) == FateOf(w, i, pending, j)
  }

  /** The done/pending loop over one level's futures. */
  method Pool(levels: seq<seq<WaveTask>>, dag: Graph, w: Workers, i: nat, runnable: set<nat>, results0: seq<Entry>,
              aborted0: set<Id>, log0: seq<Event>)
    returns (results: seq<Entry>, aborted: set<Id>, log: seq<Event>)
    requires i < |levels| && Stands(levels, dag, i, runnable, results0, aborted0, log0)
    ensures Stands(levels, dag, i, {}, results, aborted, log)
    ensures Emptied(w, i, runnable, {}, log0, log)
  {
    results, aborted, log := results0, aborted0, log0;
    var pending := runnable;
    while pending != {}
      invariant Stands(levels, dag, i, pending, results, aborted, log)
      invariant SameFates(w, i, runnable, pending) && Emptied(w, i, runnable, pending, log0, log)
      decreases pending
    {
      var done := w.ready(i, pending) * pending;
      var timedOut := done == {};
      if timedOut {
        done := pending;
      }
      results, aborted, log := Settle(levels, dag, w, i, runnable, pending, done, timedOut, results, aborted, log0,
          log);
      pending := pending - done;
    }
  }

  lemma SettleTurn(levels: seq<seq<WaveTask>>, dag: Graph, w: Workers, i: nat, runnable: set<nat>, waiting: set<nat>,
                   j: nat, fate: Fate, results: seq<Entry>, aborted: set<Id>, log0: seq<Event>, log: seq<Event>)
    requires i < |levels| && j in waiting
    requires Stands(levels, dag, i, waiting, results, aborted, log) && Emptied(w, i, runnable, waiting, log0, log)
    requires fate == FateOf(w, i, runnable, j)
    ensures var log' := log + [Event(i, j, fate)];
            && Stands(levels, dag, i, waiting - {j}, results + EntriesOf(levels[i][j], fate),
                      AddAbort(aborted, levels[i][j], fate), log')
            && Emptied(w, i, runnable, waiting - {j}, log0, log')
  {
    SettleTask(levels, dag, log, results, aborted, i, j, fate, waiting);
  }

  /** Handling the futures that one wait has returned, or that a timeout has given up. */
  method Settle(levels: seq<seq<WaveTask>>, dag: Graph, w: Workers, i: nat, ghost runnable: set<nat>, pending: set<nat>,
                done: set<nat>, timedOut: bool, results0: seq<Entry>, aborted0: set<Id>, ghost log0: seq<Event>,
                before: seq<Event>)
    returns (results: seq<Entry>, aborted: set<Id>, log: seq<Event>)
    requires i < |levels| && Stands(levels, dag, i, pending, results0, aborted0, before)
    requires SameFates(w, i, runnable, pending) && Emptied(w, i, runnable, pending, log0, before)
    requires if timedOut then w.ready(i, pending) * pending == {} && done == pending
             else done == w.ready(i, pending) * pending
    ensures Stands(levels, dag, i, pending - done, results, aborted, log)
    ensures Emptied(w, i, runnable, pending - done, log0, log)
  {
    results, aborted, log := results0, aborted0, before;
    var left := done;
    ghost var waiting := pending;
    while left != {}
      invariant left <= done && waiting == pending - (done - left)
      invariant Stands(levels, dag, i, waiting, results, aborted, log)
      invariant Emptied(w, i, runnable, waiting, log0, log)
      decreases left
    {
      var j :| j in left;
      var fate := if timedOut then TimedOut else Finished(w.outcome(i, j));
      assert fate == FateOf(w, i, runnable, j);
      SettleTurn(levels, dag, w, i, runnable, waiting, j, fate, results, aborted, log0, log);
      results := results + EntriesOf(levels[i][j], fate);
      aborted := AddAbort(aborted, levels[i][j], fate);
      log := log + [Event(i, j, fate)];
      left, waiting := left - {j}, waiting - {j};
    }
    assert waiting == pending - done;
  }

  /** The positions of level `i` that were dispatched. */
  ghost function Dispatched(log: seq<Event>, i: nat): set<nat> {
    set n | 0 <= n < |log| && log[n].level == i && !log[n].fate.Blocked? :: log[n].pos
  }

  /** The tasks dispatched below level `i` met the fates that the workers had for them. */
  ghost predicate Obeys(w: Workers, log: seq<Event>, i: nat) {
    forall n :: 0 <= n < |log| && log[n].level < i && !log[n].fate.Blocked? ==>
      && log[n].pos in Dispatched(log, log[n].level)
      && log[n].fate == FateOf(w, log[n].level, Dispatched(log, log[n].level), log[n].pos)
  }

  /** Level `i` is next: everything below it has a result and nothing else has. */
  ghost predicate Reached(levels: seq<seq<WaveTask>>, dag: Graph, i: nat, results: seq<Entry>, aborted: set<Id>,
                          log: seq<Event>) {
    Progress(levels, dag, log, results, aborted) && UpTo(levels, log, i) && Blocking(log, i, 0)
  }

  lemma LevelDone(levels: seq<seq<WaveTask>>, dag: Graph, i: nat, results: seq<Entry>, aborted: set<Id>,
                  log: seq<Event>)
    requires i < |levels| && Stands(levels, dag, i, {}, results, aborted, log)
    ensures Reached(levels, dag, i + 1, results, aborted, log)
  {
  }

  /** After a level, its dispatched tasks are those that the blocking pass let through. */
  lemma LevelObeys(levels: seq<seq<WaveTask>>, dag: Graph, w: Workers, i: nat, runnable: set<nat>, before: seq<Event>,
                   middle: seq<Event>, log: seq<Event>)
    requires i < |levels| && Blocking(before, i, 0) && OnlyBlocks(before, middle, i)
    requires Remaining(levels, dag, middle, i, |levels[i]|, runnable)
    requires Remaining(levels, dag, log, i, |levels[i]|, {})
    requires Emptied(w, i, runnable, {}, middle, log)
    requires Obeys(w, before, i)
    ensures Obeys(w, log, i + 1)
  {
    assert forall n :: 0 <= n < |before| ==> log[n] == before[n];
    assert forall n :: 0 <= n < |middle| ==> log[n] == middle[n];
    assert forall n :: 0 <= n < |log| && log[n].level == i && !log[n].fate.Blocked? ==>
        n >= |middle| && log[n].pos in runnable;
    forall j | j in runnable
      ensures j in Dispatched(log, i)
    {
      assert Has(log, i, j);
      var n :| 0 <= n < |log| && log[n].level == i && log[n].pos == j;
      assert !Has(middle, i, j);
    }
    assert Dispatched(log, i) == runnable;
    forall l: nat | l < i
      ensures Dispatched(log, l) == Dispatched(before, l)
    {
      LowerLevelsKept(before, log, i, l);
    }
  }

  /** Events at level `i` do not change what was dispatched below it. */
  lemma LowerLevelsKept(before: seq<Event>, log: seq<Event>, i: nat, l: nat)
    requires before <= log && l < i && forall n :: |before| <= n < |log| ==> log[n].level == i
    ensures Dispatched(log, l) == Dispatched(before, l)
  {
    forall j | j in Dispatched(before, l)
      ensures j in Dispatched(log, l)
    {
      var n :| 0 <= n < |before| && before[n].level == l && !before[n].fate.Blocked? && before[n].pos == j;
      assert log[n] == before[n];
    }
  }

  lemma RunDone(levels: seq<seq<WaveTask>>, dag: Graph, results: seq<Entry>, aborted: set<Id>, log: seq<Event>)
    requires Reached(levels, dag, |levels|, results, aborted, log)
    ensures OncePerTask(levels, log)
  {
  }

  method RunLevels(levels: seq<seq<WaveTask>>, dag: Graph, w: Workers)
    returns (results: seq<Entry>, aborted: set<Id>, log: seq<Event>)
    ensures OncePerTask(levels, log) && Progress(levels, dag, log, results, aborted)
    ensures Obeys(w, log, |levels|)
  {
    results, aborted, log := [], {}, [];
    for i := 0 to |levels|
      invariant Reached(levels, dag, i, results, aborted, log) && Obeys(w, log, i)
    {
      ghost var before := log;
      var runnable;
      runnable, results, aborted, log := BlockPass(levels, dag, i, results, aborted, log);
      ghost var middle := log;
      results, aborted, log := Pool(levels, dag, w, i, runnable, results, aborted, log);
      LevelObeys(levels, dag, w, i, runnable, before, middle, log);
      LevelDone(levels, dag, i, results, aborted, log);
    }
    RunDone(levels, dag, results, aborted, log);
  }
}
