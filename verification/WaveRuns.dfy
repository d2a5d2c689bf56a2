/**
  What a run of the dispatch loop amounts to: who is dispatched, that nothing is
  lost or counted twice, that the order in which finished futures are handled does
  not matter, and `run_wave` as a whole.
 */
module WaveRuns {
  import opened Wrappers
  import opened Collections
  import opened Graphs
  import opened WaveLevels
  import opened WaveDispatch

  // ---------------------------------------------------------------------------
  // Who is dispatched
  // ---------------------------------------------------------------------------

  /** If the task at `(i, j)` depends on the one at `(i', j')`, that one is scheduled at a strictly earlier level. */
  predicate InOrder(levels: seq<seq<WaveTask>>, dag: Graph, i: nat, j: nat, i': nat, j': nat)
    requires i < |levels| && j < |levels[i]| && i' < |levels| && j' < |levels[i']|
  {
    Tid(levels[i'][j']) in Deps(dag, Tid(levels[i][j])) ==> i' < i
  }

  ghost predicate Ordered(levels: seq<seq<WaveTask>>, dag: Graph) {
    forall i, j, i', j' {:trigger InOrder(levels, dag, i, j, i', j')} ::
      0 <= i < |levels| && 0 <= j < |levels[i]| && 0 <= i' < |levels| && 0 <= j' < |levels[i']| ==>
        InOrder(levels, dag, i, j, i', j')
  }

  /** Some scheduled task has this name. */
  ghost predicate Occurs(levels: seq<seq<WaveTask>>, id: Id) {
    exists i, j :: 0 <= i < |levels| && 0 <= j < |levels[i]| && Tid(levels[i][j]) == id
  }

  /** The scheduled tasks all name themselves, and `ids` are their names. */
  ghost predicate Names(levels: seq<seq<WaveTask>>, ids: set<Id>) {
    && (forall i, j :: 0 <= i < |levels| && 0 <= j < |levels[i]| ==> Keyed(levels[i][j]) && Tid(levels[i][j]) in ids)
    && (forall id {:trigger Occurs(levels, id)} :: id in ids ==> Occurs(levels, id))
  }

  /** The task failed on its own account: it was dispatched, and then failed, aborted or timed out. */
  predicate Origin(fate: Fate) {
    match fate
    case Blocked => false
    case TimedOut => true
    case Finished(Returned(_, status)) => status == Some("failed") || status == Some("aborted")
    case Finished(_) => false
  }

  /** A log in which an in-order schedule was worked off by the dispatch loop. */
  ghost predicate Worked(levels: seq<seq<WaveTask>>, dag: Graph, ids: set<Id>, log: seq<Event>) {
    && Names(levels, ids)
    && Ordered(levels, dag)
    && OncePerTask(levels, log)
    && BlockRule(levels, dag, log)
  }

  ghost function NameOf(levels: seq<seq<WaveTask>>, log: seq<Event>, n: nat): Id
    requires n < |log| && AllAt(levels, log)
  {
    Tid(TaskAt(levels, log[n]))
  }

  /** A cause of blocking is a recorded dependency, and, in an in-order schedule, any recorded dependency is a cause. */
  lemma CauseIsDependency(levels: seq<seq<WaveTask>>, dag: Graph, ids: set<Id>, log: seq<Event>, n: nat, m: nat)
    requires Worked(levels, dag, ids, log) && n < |log| && m < |log|
    ensures Causes(levels, dag, log[m], log[n].level, log[n].pos) <==>
              Records(log[m].fate) && NameOf(levels, log, m) in Deps(dag, NameOf(levels, log, n))
    ensures Causes(levels, dag, log[m], log[n].level, log[n].pos) ==>
              log[m].level < log[n].level && Edge(dag, ids, NameOf(levels, log, n), NameOf(levels, log, m))
  {
    assert At(levels, log[n]) && At(levels, log[m]);
    assert InOrder(levels, dag, log[n].level, log[n].pos, log[m].level, log[m].pos);
    assert Keyed(TaskAt(levels, log[m]));
    assert AbortId(TaskAt(levels, log[m]), log[m].fate) == Tid(TaskAt(levels, log[m]));
  }

  /** On any graph, a cause of blocking is an in-plan dependency. */
  lemma CauseIsEdge(levels: seq<seq<WaveTask>>, dag: Graph, ids: set<Id>, log: seq<Event>, n: nat, m: nat)
    requires Names(levels, ids) && AllAt(levels, log) && n < |log| && m < |log|
    requires Causes(levels, dag, log[m], log[n].level, log[n].pos)
    ensures Edge(dag, ids, NameOf(levels, log, n), NameOf(levels, log, m))
  {
    assert At(levels, log[n]) && At(levels, log[m]);
    assert Keyed(TaskAt(levels, log[m]));
  }

  /** Every blocked task has a proper ancestor that failed on its own account, whether or not the graph has cycles. */
  lemma {:induction false} BlockedHasOrigin(levels: seq<seq<WaveTask>>, dag: Graph, ids: set<Id>, log: seq<Event>,
                                            n: nat)
    returns (o: nat)
    requires Names(levels, ids) && AllAt(levels, log) && BlockRule(levels, dag, log)
    requires n < |log| && log[n].fate.Blocked?
    ensures o < |log| && Origin(log[o].fate) && Reaches(dag, ids, NameOf(levels, log, n), NameOf(levels, log, o))
    decreases log[n].level, log[n].pos
  {
    assert Decided(levels, dag, log, n);
    var m :| 0 <= m < |log| && Causes(levels, dag, log[m], log[n].level, log[n].pos);
    CauseIsEdge(levels, dag, ids, log, n, m);
    EdgeReaches(dag, ids, NameOf(levels, log, n), NameOf(levels, log, m));
    if log[m].fate.Blocked? {
      o := BlockedHasOrigin(levels, dag, ids, log, m);
      ReachesTransitive(dag, ids, NameOf(levels, log, n), NameOf(levels, log, m), NameOf(levels, log, o));
    } else {
      o := m;
    }
  }

  /** A recorded failure blocks every task that depends on it, directly or not. */
  lemma {:induction false} FailureBlocks(levels: seq<seq<WaveTask>>, dag: Graph, ids: set<Id>, log: seq<Event>,
                                         n: nat, m: nat)
    requires Worked(levels, dag, ids, log) && n < |log| && m < |log|
    ensures Records(log[m].fate) && Reaches(dag, ids, NameOf(levels, log, n), NameOf(levels, log, m)) ==>
              log[n].fate.Blocked?
    decreases log[n].level
  {
    if Records(log[m].fate) && Reaches(dag, ids, NameOf(levels, log, n), NameOf(levels, log, m)) {
      var b := ReachesFirst(dag, ids, NameOf(levels, log, n), NameOf(levels, log, m));
      assert Decided(levels, dag, log, n);
      if b == NameOf(levels, log, m) {
        CauseIsDependency(levels, dag, ids, log, n, m);
      } else {
        assert Occurs(levels, b);
        var i, j :| 0 <= i < |levels| && 0 <= j < |levels[i]| && Tid(levels[i][j]) == b;
        assert Has(log, i, j);
        var k :| 0 <= k < |log| && log[k].level == i && log[k].pos == j;
        assert At(levels, log[n]) && At(levels, log[k]);
        assert InOrder(levels, dag, log[n].level, log[n].pos, i, j);
        FailureBlocks(levels, dag, ids, log, k, m);
        CauseIsDependency(levels, dag, ids, log, n, k);
      }
    }
  }

  /** The failure-propagation rule, for one task. */
  ghost predicate BlockedByAncestor(levels: seq<seq<WaveTask>>, dag: Graph, ids: set<Id>, log: seq<Event>, n: nat)
    requires n < |log| && AllAt(levels, log)
  {
    exists m :: 0 <= m < |log| && Origin(log[m].fate)
             && Reaches(dag, ids, NameOf(levels, log, n), NameOf(levels, log, m))
  }

  /** No proper ancestor of the task is in `aborted_task_ids` at the end of the run. */
  ghost predicate AncestorsClear(levels: seq<seq<WaveTask>>, dag: Graph, ids: set<Id>, log: seq<Event>, n: nat)
    requires n < |log| && AllAt(levels, log)
  {
    forall a :: Reaches(dag, ids, NameOf(levels, log, n), a) ==> !Aborted(levels, log, a)
  }

  /** `aborted_task_ids` holds the names of the tasks whose fates are recorded there. */
  lemma AbortedNames(levels: seq<seq<WaveTask>>, dag: Graph, ids: set<Id>, log: seq<Event>, m: nat)
    requires Worked(levels, dag, ids, log) && m < |log|
    ensures AbortId(TaskAt(levels, log[m]), log[m].fate) == NameOf(levels, log, m)
    ensures Records(log[m].fate) ==> Aborted(levels, log, NameOf(levels, log, m))
  {
    assert At(levels, log[m]) && Keyed(TaskAt(levels, log[m]));
  }

  lemma BlockedNotClear(levels: seq<seq<WaveTask>>, dag: Graph, ids: set<Id>, log: seq<Event>, n: nat)
    requires Worked(levels, dag, ids, log) && n < |log| && log[n].fate.Blocked?
    ensures !AncestorsClear(levels, dag, ids, log, n) && BlockedByAncestor(levels, dag, ids, log, n)
  {
    var o := BlockedHasOrigin(levels, dag, ids, log, n);
    AbortedNames(levels, dag, ids, log, o);
  }

  lemma DispatchedIsClear(levels: seq<seq<WaveTask>>, dag: Graph, ids: set<Id>, log: seq<Event>, n: nat)
    requires Worked(levels, dag, ids, log) && n < |log| && !log[n].fate.Blocked?
    ensures AncestorsClear(levels, dag, ids, log, n)
  {
    forall a | Reaches(dag, ids, NameOf(levels, log, n), a)
      ensures !Aborted(levels, log, a)
    {
      if Aborted(levels, log, a) {
        var m :| 0 <= m < |log| && Records(log[m].fate) && AbortId(TaskAt(levels, log[m]), log[m].fate) == a;
        AbortedNames(levels, dag, ids, log, m);
        FailureBlocks(levels, dag, ids, log, n, m);
        assert false;
      }
    }
  }

  /**
    A task is dispatched if and only if none of its proper ancestors is recorded
    failed, aborted or timed out; and if and only if none of them failed on its
    own account.
   */
  lemma DispatchedIffAncestorsClear(levels: seq<seq<WaveTask>>, dag: Graph, ids: set<Id>, log: seq<Event>, n: nat)
    requires Worked(levels, dag, ids, log) && n < |log|
    ensures !log[n].fate.Blocked? <==> AncestorsClear(levels, dag, ids, log, n)
    ensures !log[n].fate.Blocked? <==> !BlockedByAncestor(levels, dag, ids, log, n)
  {
    if log[n].fate.Blocked? {
      BlockedNotClear(levels, dag, ids, log, n);
    } else {
      DispatchedIsClear(levels, dag, ids, log, n);
      if BlockedByAncestor(levels, dag, ids, log, n) {
        var m :| 0 <= m < |log| && Origin(log[m].fate)
              && Reaches(dag, ids, NameOf(levels, log, n), NameOf(levels, log, m));
        AbortedNames(levels, dag, ids, log, m);
        assert false;
      }
    }
  }

  // ---------------------------------------------------------------------------
  // Nothing is lost or counted twice
  // ---------------------------------------------------------------------------

  /** How many events satisfy a test. */
  function CountEvents(log: seq<Event>, p: Event -> bool): nat {
    if log == [] then 0 else CountEvents(log[..|log| - 1], p) + if p(log[|log| - 1]) then 1 else 0
  }

  function CountEntries(results: seq<Entry>, p: Entry -> bool): nat {
    if results == [] then 0 else CountEntries(results[..|results| - 1], p) + if p(results[|results| - 1]) then 1 else 0
  }

  const IsMalformed: Event -> bool := (e: Event) => e.fate == Finished(Malformed)

  lemma {:induction false} TranscriptLength(levels: seq<seq<WaveTask>>, log: seq<Event>)
    requires AllAt(levels, log)
    ensures |Transcript(levels, log)| == |log| + CountEvents(log, IsMalformed)
    ensures BadEntry in Transcript(levels, log) <==> CountEvents(log, IsMalformed) > 0
    decreases |log|
  {
    if log != [] {
      var init, e := log[..|log| - 1], log[|log| - 1];
      assert At(levels, e);
      TranscriptLength(levels, init);
      assert BadEntry in Transcript(levels, log) <==> BadEntry in Transcript(levels, init) || IsMalformed(e);
    }
  }

  ghost function Row(i: nat, n: nat): set<(nat, nat)> {
    set j | 0 <= j < n :: (i, j)
  }

  lemma {:induction false} RowSize(i: nat, n: nat)
    ensures |Row(i, n)| == n
  {
    if n > 0 {
      RowSize(i, n - 1);
      assert Row(i, n) == Row(i, n - 1) + {(i, n - 1)};
    }
  }

  ghost function Positions(levels: seq<seq<WaveTask>>): set<(nat, nat)> {
    if levels == [] then {}
    else Positions(levels[..|levels| - 1]) + Row(|levels| - 1, |levels[|levels| - 1]|)
  }

  /** The number of scheduled tasks. */
  function Scheduled(levels: seq<seq<WaveTask>>): nat {
    if levels == [] then 0 else Scheduled(levels[..|levels| - 1]) + |levels[|levels| - 1]|
  }

  lemma {:induction false} PositionsSize(levels: seq<seq<WaveTask>>)
    ensures |Positions(levels)| == Scheduled(levels)
    ensures forall i: nat, j: nat :: (i, j) in Positions(levels) <==> i < |levels| && j < |levels[i]|
    decreases |levels|
  {
    if levels != [] {
      var init := levels[..|levels| - 1];
      PositionsSize(init);
      RowSize(|levels| - 1, |levels[|levels| - 1]|);
      assert Positions(init) !! Row(|levels| - 1, |levels[|levels| - 1]|);
    }
  }

  ghost function Places(log: seq<Event>): set<(nat, nat)> {
    set n | 0 <= n < |log| :: (log[n].level, log[n].pos)
  }

  lemma {:induction false} PlacesSize(log: seq<Event>)
    requires NoRepeat(log)
    ensures |Places(log)| == |log|
    decreases |log|
  {
    if log != [] {
      var init, e := log[..|log| - 1], log[|log| - 1];
      PlacesSize(init);
      assert forall n :: 0 <= n < |init| ==> init[n] == log[n];
      assert Places(log) == Places(init) + {(e.level, e.pos)};
    }
  }

  /** One event per scheduled task, hence one result row each, and a second one for each malformed record. */
  lemma ResultConservation(levels: seq<seq<WaveTask>>, log: seq<Event>)
    requires OncePerTask(levels, log)
    ensures |log| == Scheduled(levels)
    ensures |Transcript(levels, log)| == Scheduled(levels) + CountEvents(log, IsMalformed)
    ensures BadEntry in Transcript(levels, log) <==> CountEvents(log, IsMalformed) > 0
  {
    PositionsSize(levels);
    PlacesSize(log);
    forall p | p in Positions(levels)
      ensures p in Places(log)
    {
      assert (p.0, p.1) in Positions(levels);
      assert Has(log, p.0, p.1);
    }
    forall n | 0 <= n < |log|
      ensures (log[n].level, log[n].pos) in Positions(levels)
    {
      assert At(levels, log[n]);
    }
    assert Places(log) == Positions(levels);
    TranscriptLength(levels, log);
  }

  datatype Summary = Summary(allCompleted: bool, completed: nat, failed: nat, paused: nat)

  const IsCompleted: Entry -> bool := (e: Entry) => e.Entry? && e.status == Some("completed")
  const IsFailed: Entry -> bool := (e: Entry) => e.Entry? && FailedStatus(e.status)
  const IsPaused: Entry -> bool := (e: Entry) => e.Entry? && e.status == Some("paused")

  /** The four statuses that the summary counts. */
  predicate Counted(e: Entry) {
    IsCompleted(e) || IsFailed(e) || IsPaused(e)
  }

  /** The summary step; reading the status of a malformed row raises. */
  function Summarise(results: seq<Entry>): Option<Summary> {
    if BadEntry in results then None
    else
      var completed, failed, paused :=
        CountEntries(results, IsCompleted), CountEntries(results, IsFailed), CountEntries(results, IsPaused);
      Some(Summary(failed == 0 && paused == 0, completed, failed, paused))
  }

  lemma {:induction false} CountsAreDisjoint(results: seq<Entry>)
    ensures var total := CountEntries(results, IsCompleted) + CountEntries(results, IsFailed)
                         + CountEntries(results, IsPaused);
            && total <= |results|
            && (total == |results| <==> forall n :: 0 <= n < |results| ==> Counted(results[n]))
    decreases |results|
  {
    if results != [] {
      var init, e := results[..|results| - 1], results[|results| - 1];
      CountsAreDisjoint(init);
      assert forall n :: 0 <= n < |init| ==> init[n] == results[n];
      assert Counted(e) <==> Counted(results[|results| - 1]);
    }
  }

  /**
    A summary is produced exactly when no worker returned a malformed record.
    Then completed, failed and paused add up to at most the number of scheduled
    tasks, and to exactly that number when every status is one of the four counted.
   */
  lemma SummaryConservation(levels: seq<seq<WaveTask>>, log: seq<Event>)
    requires OncePerTask(levels, log)
    ensures var results := Transcript(levels, log);
            match Summarise(results)
            case None => CountEvents(log, IsMalformed) > 0
            case Some(s) =>
              && |results| == Scheduled(levels)
              && s.completed + s.failed + s.paused <= Scheduled(levels)
              && (s.completed + s.failed + s.paused == Scheduled(levels)
                  <==> forall n :: 0 <= n < |results| ==> Counted(results[n]))
  {
    ResultConservation(levels, log);
    CountsAreDisjoint(Transcript(levels, log));
  }

  // What the summary says about the fates.

  const CompletedFate: Event -> bool :=
    (e: Event) => e.fate.Finished? && e.fate.outcome.Returned? && e.fate.outcome.status == Some("completed")

  const FailedFate: Event -> bool :=
    (e: Event) =>
      match e.fate
      case Blocked => true
      case TimedOut => true
      case Finished(Raised(_)) => true
      case Finished(Returned(_, status)) => status == Some("failed") || status == Some("aborted")
      case Finished(Malformed) => false

  const PausedFate: Event -> bool :=
    (e: Event) => e.fate.Finished? && e.fate.outcome.Returned? && e.fate.outcome.status == Some("paused")

  /** The counts of a summary are numbers of tasks that met certain fates, and it says "all completed" accordingly. */
  ghost predicate Tells(summary: Summary, log: seq<Event>) {
    && summary.completed == CountEvents(log, CompletedFate)
    && summary.failed == CountEvents(log, FailedFate)
    && summary.paused == CountEvents(log, PausedFate)
    && (summary.allCompleted <==> summary.failed == 0 && summary.paused == 0)
  }

  /** One event that is not malformed adds one row, which counts as its fate does. */
  lemma RowTells(t: WaveTask, e: Event)
    requires !IsMalformed(e)
    ensures |EntriesOf(t, e.fate)| == 1
    ensures var row := EntriesOf(t, e.fate)[0];
            && (IsCompleted(row) <==> CompletedFate(e))
            && (IsFailed(row) <==> FailedFate(e))
            && (IsPaused(row) <==> PausedFate(e))
  {
  }

  lemma CountSnoc(results: seq<Entry>, row: Entry, p: Entry -> bool)
    ensures CountEntries(results + [row], p) == CountEntries(results, p) + if p(row) then 1 else 0
  {
    assert (results + [row])[..|results|] == results;
  }

  lemma {:induction false} CountsTell(levels: seq<seq<WaveTask>>, log: seq<Event>)
    requires AllAt(levels, log) && forall n :: 0 <= n < |log| ==> !IsMalformed(log[n])
    ensures var results := Transcript(levels, log);
            && CountEntries(results, IsCompleted) == CountEvents(log, CompletedFate)
            && CountEntries(results, IsFailed) == CountEvents(log, FailedFate)
            && CountEntries(results, IsPaused) == CountEvents(log, PausedFate)
    decreases |log|
  {
    if log != [] {
      var init, e := log[..|log| - 1], log[|log| - 1];
      CountsTell(levels, init);
      assert At(levels, e) && !IsMalformed(e);
      var t, before := TaskAt(levels, e), Transcript(levels, init);
      RowTells(t, e);
      var row := EntriesOf(t, e.fate)[0];
      assert Transcript(levels, log) == before + [row];
      CountSnoc(before, row, IsCompleted);
      CountSnoc(before, row, IsFailed);
      CountSnoc(before, row, IsPaused);
    }
  }

  lemma {:induction false} MalformedCounted(log: seq<Event>, n: nat)
    requires n < |log| && IsMalformed(log[n])
    ensures CountEvents(log, IsMalformed) > 0
    decreases |log|
  {
    if n < |log| - 1 {
      MalformedCounted(log[..|log| - 1], n);
    }
  }

  /**
    Of every run that has a summary, it counts as completed the tasks whose worker
    returned "completed", as failed those that were blocked, timed out, raised, or
    returned "failed" or "aborted", and as paused those that returned "paused"; and
    it says that all completed exactly when none failed and none is paused.
   */
  lemma SummaryTells(levels: seq<seq<WaveTask>>, log: seq<Event>)
    requires OncePerTask(levels, log) && Summarise(Transcript(levels, log)).Some?
    ensures Tells(Summarise(Transcript(levels, log)).value, log)
  {
    ResultConservation(levels, log);
    forall n | 0 <= n < |log|
      ensures !IsMalformed(log[n])
    {
      if IsMalformed(log[n]) {
        MalformedCounted(log, n);
        assert false;
      }
    }
    CountsTell(levels, log);
  }

  // ---------------------------------------------------------------------------
  // The order in which finished futures are handled does not matter
  // ---------------------------------------------------------------------------

  /**
    The events of a run: one for each scheduled task, under the blocking rule, with
    the fates the workers had for them.
   */
  ghost predicate History(levels: seq<seq<WaveTask>>, dag: Graph, w: Workers, log: seq<Event>) {
    OncePerTask(levels, log) && BlockRule(levels, dag, log) && Obeys(w, log, |levels|)
  }

  /** Every record that a worker returns for a scheduled task has a record for its result. */
  ghost predicate WellFormed(levels: seq<seq<WaveTask>>, w: Workers) {
    forall i, j :: 0 <= i < |levels| && 0 <= j < |levels[i]| ==> w.outcome(i, j) != Malformed
  }

  lemma {:induction false} NoneMalformed(log: seq<Event>)
    requires forall n :: 0 <= n < |log| ==> !IsMalformed(log[n])
    ensures CountEvents(log, IsMalformed) == 0
    decreases |log|
  {
    if log != [] {
      NoneMalformed(log[..|log| - 1]);
    }
  }

  /** What the row of a task says: the step, and the status that its fate stands for. */
  predicate RowOf(t: WaveTask, fate: Fate, row: Entry) {
    match fate
    case Blocked =>
      row == Entry(if t.stepId != "" then t.stepId else if t.task != "" then t.task else t.branch.GetOr(""),
                   Some("aborted"))
    case TimedOut =>
      row == Entry(if t.stepId != "" then t.stepId else if t.task != "" then t.task else t.branch.GetOr("unknown"),
                   Some("failed"))
    case Finished(Returned(stepId, status)) => row == Entry(stepId.GetOr("unknown"), status)
    case Finished(_) => row == Entry("unknown", Some("failed"))
  }

  /** Event `n` has one row, and it is row `n`. */
  ghost predicate HasRow(levels: seq<seq<WaveTask>>, log: seq<Event>, n: nat)
    requires AllAt(levels, log)
  {
    && n < |log| && n < |Transcript(levels, log)|
    && At(levels, log[n])
    && RowOf(TaskAt(levels, log[n]), log[n].fate, Transcript(levels, log)[n])
  }

  lemma {:induction false} RowAt(levels: seq<seq<WaveTask>>, log: seq<Event>, n: nat)
    requires AllAt(levels, log) && n < |log| && forall m :: 0 <= m < |log| ==> !IsMalformed(log[m])
    ensures HasRow(levels, log, n)
    decreases |log|
  {
    var init, e := log[..|log| - 1], log[|log| - 1];
    NoneMalformed(init);
    TranscriptLength(levels, init);
    if n < |init| {
      RowAt(levels, init, n);
      assert log[n] == init[n];
      assert Transcript(levels, log)[n] == Transcript(levels, init)[n];
    } else {
      assert At(levels, e) && !IsMalformed(e);
    }
  }

  /**
    With such workers each scheduled task has exactly one row, that of its event,
    and the summary exists.
   */
  lemma OneRowEach(levels: seq<seq<WaveTask>>, dag: Graph, w: Workers, log: seq<Event>)
    requires History(levels, dag, w, log) && WellFormed(levels, w)
    ensures |Transcript(levels, log)| == |log| == Scheduled(levels)
    ensures forall n :: 0 <= n < |log| ==> HasRow(levels, log, n)
    ensures Summarise(Transcript(levels, log)).Some?
  {
    forall n | 0 <= n < |log|
      ensures !IsMalformed(log[n])
    {
      assert At(levels, log[n]);
    }
    NoneMalformed(log);
    ResultConservation(levels, log);
    forall n | 0 <= n < |log|
      ensures HasRow(levels, log, n)
    {
      RowAt(levels, log, n);
    }
  }

  /** No wait at level `i` times out. */
  ghost predicate NoTimeouts(w: Workers, i: nat) {
    forall pending :: pending != {} ==> w.ready(i, pending) * pending != {}
  }

  lemma {:induction false} FateWithoutTimeouts(w: Workers, i: nat, pending: set<nat>, j: nat)
    requires NoTimeouts(w, i) && j in pending
    ensures FateOf(w, i, pending, j) == Finished(w.outcome(i, j))
    decreases |pending|
  {
    var done := w.ready(i, pending) * pending;
    if j !in done {
      SmallerSet(pending - done, pending);
      FateWithoutTimeouts(w, i, pending - done, j);
    }
  }

  /**
    Where no wait times out, every dispatched task has what its worker yielded; where
    the first one does, they all time out.
   */
  lemma FatesOfLevel(levels: seq<seq<WaveTask>>, dag: Graph, w: Workers, log: seq<Event>, n: nat)
    requires History(levels, dag, w, log) && n < |log| && !log[n].fate.Blocked?
    ensures NoTimeouts(w, log[n].level) ==> log[n].fate == Finished(w.outcome(log[n].level, log[n].pos))
    ensures w.ready(log[n].level, Dispatched(log, log[n].level)) == {} ==> log[n].fate == TimedOut
  {
    assert At(levels, log[n]);
    if NoTimeouts(w, log[n].level) {
      FateWithoutTimeouts(w, log[n].level, Dispatched(log, log[n].level), log[n].pos);
    }
  }

  /** Two histories agree on which tasks are blocked. */
  lemma {:induction false} SameBlocked(levels: seq<seq<WaveTask>>, dag: Graph, w: Workers, log: seq<Event>,
                                       other: seq<Event>, n: nat, m: nat)
    requires History(levels, dag, w, log) && History(levels, dag, w, other)
    requires n < |log| && m < |other| && log[n].level == other[m].level && log[n].pos == other[m].pos
    ensures log[n].fate.Blocked? ==> other[m].fate.Blocked?
    decreases log[n].level, 0, log[n].pos
  {
    if log[n].fate.Blocked? {
      var i, j := log[n].level, log[n].pos;
      assert Decided(levels, dag, log, n) && Decided(levels, dag, other, m);
      var k :| 0 <= k < |log| && Causes(levels, dag, log[k], i, j);
      assert At(levels, log[k]);
      assert Has(other, log[k].level, log[k].pos);
      var l :| 0 <= l < |other| && other[l].level == log[k].level && other[l].pos == log[k].pos;
      if log[k].level < i {
        SameFate(levels, dag, w, log, other, k, l);
      } else {
        SameBlocked(levels, dag, w, log, other, k, l);
      }
      assert Causes(levels, dag, other[l], i, j);
    }
  }

  /** So they dispatch the same tasks at each level. */
  lemma {:induction false} SameDispatched(levels: seq<seq<WaveTask>>, dag: Graph, w: Workers, log: seq<Event>,
                                          other: seq<Event>, i: nat, j: nat)
    requires History(levels, dag, w, log) && History(levels, dag, w, other)
    requires i < |levels| && j in Dispatched(log, i)
    ensures j in Dispatched(other, i)
    decreases i, 1
  {
    var n :| 0 <= n < |log| && log[n].level == i && !log[n].fate.Blocked? && log[n].pos == j;
    assert At(levels, log[n]);
    assert Has(other, i, j);
    var m :| 0 <= m < |other| && other[m].level == i && other[m].pos == j;
    SameBlocked(levels, dag, w, other, log, m, n);
  }

  /** And so every task meets the same fate in both. */
  lemma {:induction false} SameFate(levels: seq<seq<WaveTask>>, dag: Graph, w: Workers, log: seq<Event>,
                                    other: seq<Event>, n: nat, m: nat)
    requires History(levels, dag, w, log) && History(levels, dag, w, other)
    requires n < |log| && m < |other| && log[n].level == other[m].level && log[n].pos == other[m].pos
    ensures log[n].fate == other[m].fate
    decreases log[n].level, 2
  {
    var i := log[n].level;
    assert At(levels, log[n]);
    SameBlocked(levels, dag, w, log, other, n, m);
    SameBlocked(levels, dag, w, other, log, m, n);
    if !log[n].fate.Blocked? {
      forall j
        ensures j in Dispatched(log, i) <==> j in Dispatched(other, i)
      {
        if j in Dispatched(log, i) {
          SameDispatched(levels, dag, w, log, other, i, j);
        }
        if j in Dispatched(other, i) {
          SameDispatched(levels, dag, w, other, log, i, j);
        }
      }
      assert Dispatched(log, i) == Dispatched(other, i);
    }
  }

  /** Two histories are permutations of each other. */
  lemma HistoriesPermute(levels: seq<seq<WaveTask>>, dag: Graph, w: Workers, log: seq<Event>, other: seq<Event>)
    requires History(levels, dag, w, log) && History(levels, dag, w, other)
    ensures multiset(log) == multiset(other)
  {
    forall e: Event
      ensures multiset(log)[e] == multiset(other)[e]
    {
      DistinctMultiset(log, e);
      DistinctMultiset(other, e);
      if e in log {
        SharedEvent(levels, dag, w, log, other, e);
      }
      if e in other {
        SharedEvent(levels, dag, w, other, log, e);
      }
    }
  }

  lemma SharedEvent(levels: seq<seq<WaveTask>>, dag: Graph, w: Workers, log: seq<Event>, other: seq<Event>, e: Event)
    requires History(levels, dag, w, log) && History(levels, dag, w, other) && e in log
    ensures e in other
  {
    var n :| 0 <= n < |log| && log[n] == e;
    assert At(levels, log[n]);
    assert Has(other, e.level, e.pos);
    var m :| 0 <= m < |other| && other[m].level == e.level && other[m].pos == e.pos;
    SameFate(levels, dag, w, log, other, n, m);
    assert other[m] == e;
  }

  function RowsOf(levels: seq<seq<WaveTask>>, e: Event): seq<Entry>
    requires At(levels, e)
  {
    EntriesOf(TaskAt(levels, e), e.fate)
  }

  lemma TranscriptSnoc(levels: seq<seq<WaveTask>>, init: seq<Event>, e: Event)
    requires AllAt(levels, init) && At(levels, e)
    ensures AllAt(levels, init + [e])
    ensures multiset(Transcript(levels, init + [e])) == multiset(Transcript(levels, init)) + multiset(RowsOf(levels, e))
  {
    var log := init + [e];
    assert log[..|log| - 1] == init;
  }

  /** Taking one event out of a log takes its rows out of the results. */
  lemma {:induction false} TranscriptWithout(levels: seq<seq<WaveTask>>, log: seq<Event>, k: nat)
    requires AllAt(levels, log) && k < |log|
    ensures At(levels, log[k]) && AllAt(levels, RemoveAt(log, k))
    ensures multiset(Transcript(levels, log)) ==
              multiset(Transcript(levels, RemoveAt(log, k))) + multiset(RowsOf(levels, log[k]))
    decreases |log|
  {
    var init, e := log[..|log| - 1], log[|log| - 1];
    RemoveSnoc(log, k);
    if k < |log| - 1 {
      TranscriptWithout(levels, init, k);
      WithoutBefore(levels, init, k, e);
    } else {
      TranscriptSnoc(levels, init, e);
    }
  }

  lemma WithoutBefore(levels: seq<seq<WaveTask>>, init: seq<Event>, k: nat, e: Event)
    requires AllAt(levels, init) && k < |init| && At(levels, e)
    requires At(levels, init[k]) && AllAt(levels, RemoveAt(init, k))
    requires multiset(Transcript(levels, init)) ==
               multiset(Transcript(levels, RemoveAt(init, k))) + multiset(RowsOf(levels, init[k]))
    ensures AllAt(levels, init + [e]) && AllAt(levels, RemoveAt(init, k) + [e])
    ensures multiset(Transcript(levels, init + [e])) ==
              multiset(Transcript(levels, RemoveAt(init, k) + [e])) + multiset(RowsOf(levels, init[k]))
  {
    TranscriptSnoc(levels, init, e);
    TranscriptSnoc(levels, RemoveAt(init, k), e);
  }

  lemma {:induction false} TranscriptPermutes(levels: seq<seq<WaveTask>>, log: seq<Event>, other: seq<Event>)
    requires AllAt(levels, log) && AllAt(levels, other) && multiset(log) == multiset(other)
    ensures multiset(Transcript(levels, log)) == multiset(Transcript(levels, other))
    decreases |log|
  {
    assert |log| == |multiset(log)| == |multiset(other)| == |other|;
    if log != [] {
      var k := Unmatch(log, other);
      TranscriptWithout(levels, other, k);
      TranscriptWithout(levels, log, |log| - 1);
      TranscriptPermutes(levels, RemoveAt(log, |log| - 1), RemoveAt(other, k));
    }
  }

  lemma {:induction false} CountWithout(results: seq<Entry>, p: Entry -> bool, k: nat)
    requires k < |results|
    ensures CountEntries(results, p) == CountEntries(RemoveAt(results, k), p) + if p(results[k]) then 1 else 0
    decreases |results|
  {
    RemoveSnoc(results, k);
    if k < |results| - 1 {
      var init, rest := results[..|results| - 1], RemoveAt(results, k);
      CountWithout(init, p, k);
      assert rest[..|rest| - 1] == RemoveAt(init, k);
    }
  }

  lemma {:induction false} CountPermutes(results: seq<Entry>, others: seq<Entry>, p: Entry -> bool)
    requires multiset(results) == multiset(others)
    ensures CountEntries(results, p) == CountEntries(others, p)
    decreases |results|
  {
    assert |results| == |multiset(results)| == |multiset(others)| == |others|;
    if results != [] {
      var k := Unmatch(results, others);
      CountWithout(others, p, k);
      CountWithout(results, p, |results| - 1);
      CountPermutes(RemoveAt(results, |results| - 1), RemoveAt(others, k), p);
    }
  }

  /**
    Given what the workers do, the rows are determined up to their order and the
    summary outright: it does not matter which finished future is handled first.
   */
  lemma OrderDoesNotMatter(levels: seq<seq<WaveTask>>, dag: Graph, w: Workers, log: seq<Event>, other: seq<Event>)
    requires History(levels, dag, w, log) && History(levels, dag, w, other)
    ensures multiset(Transcript(levels, log)) == multiset(Transcript(levels, other))
    ensures Summarise(Transcript(levels, log)) == Summarise(Transcript(levels, other))
  {
    HistoriesPermute(levels, dag, w, log, other);
    TranscriptPermutes(levels, log, other);
    var results, others := Transcript(levels, log), Transcript(levels, other);
    assert BadEntry in results <==> BadEntry in multiset(results);
    assert BadEntry in others <==> BadEntry in multiset(others);
    CountPermutes(results, others, IsCompleted);
    CountPermutes(results, others, IsFailed);
    CountPermutes(results, others, IsPaused);
  }

  // ---------------------------------------------------------------------------
  // The two together
  // ---------------------------------------------------------------------------

  /** The ids of a list of tasks, as the leveller keys them. */
  function PlanIds(tasks: seq<WaveTask>): set<Id> {
    set k | k in KeyOrder(tasks, |tasks|)
  }

  ghost predicate Named(tasks: seq<WaveTask>) {
    forall t :: t in tasks ==> Keyed(t)
  }

  lemma KeyedIds(tasks: seq<WaveTask>)
    requires Named(tasks)
    ensures forall k :: k in Table(tasks, |tasks|) ==>
              Keyed(Table(tasks, |tasks|)[k]) && Tid(Table(tasks, |tasks|)[k]) == k
  {
    forall k | k in Table(tasks, |tasks|)
      ensures Keyed(Table(tasks, |tasks|)[k]) && Tid(Table(tasks, |tasks|)[k]) == k
    {
      var i :| 0 <= i < |tasks| && k == Key(tasks[i], i) && Table(tasks, |tasks|)[k] == tasks[i];
      assert tasks[i] in tasks;
    }
  }

  /** The waves of an acyclic plan are an in-order schedule of its tasks. */
  lemma WavesAreOrdered(tasks: seq<WaveTask>, dag: Graph, level: map<Id, nat>, waves: seq<seq<WaveTask>>)
    requires Named(tasks)
    requires Acyclic(dag, PlanIds(tasks))
    requires GroupedBy(tasks, dag, level, waves)
    ensures Names(waves, PlanIds(tasks)) && Ordered(waves, dag)
  {
    var ks, table := KeyOrder(tasks, |tasks|), Table(tasks, |tasks|);
    KeyedIds(tasks);
    if ks == [] {
      NoWaves(table, level);
    } else {
      AcyclicWavesAreLevels(dag, ks, table, level);
      WavesByLevel(ks, table, level, waves);
      LevelsOrderWaves(dag, PlanIds(tasks), level, waves);
      NamesByLevel(ks, PlanIds(tasks), level, waves);
    }
  }

  lemma NoWaves(table: map<Id, WaveTask>, level: map<Id, nat>)
    ensures Compact(Buckets([], table, level)) == []
  {
    var none: seq<seq<WaveTask>> := [[]];
    assert Buckets([], table, level) == none;
    assert none[1..] == [];
  }

  lemma NamesByLevel(ks: seq<Id>, ids: set<Id>, level: map<Id, nat>, waves: seq<seq<WaveTask>>)
    requires forall k :: k in ks <==> k in ids
    requires forall k :: k in ks ==> k in level
    requires ByLevel(ks, level, waves)
    ensures Names(waves, ids)
  {
  }

  lemma LevelsOrderWaves(dag: Graph, ids: set<Id>, level: map<Id, nat>, waves: seq<seq<WaveTask>>)
    requires Acyclic(dag, ids) && Levelled(dag, ids, level) && level.Keys == ids
    requires forall i, j :: 0 <= i < |waves| && 0 <= j < |waves[i]| ==>
               Tid(waves[i][j]) in ids && level[Tid(waves[i][j])] == i
    ensures Ordered(waves, dag)
  {
    AcyclicLevels(dag, ids, level);
    forall i, j, i', j' | 0 <= i < |waves| && 0 <= j < |waves[i]| && 0 <= i' < |waves| && 0 <= j' < |waves[i']|
      ensures InOrder(waves, dag, i, j, i', j')
    {
      if Tid(waves[i'][j']) in Deps(dag, Tid(waves[i][j])) {
        assert Edge(dag, ids, Tid(waves[i][j]), Tid(waves[i'][j']));
      }
    }
  }

  /** A wave holds exactly the tasks whose ids have its level. */
  ghost predicate ByLevel(ks: seq<Id>, level: map<Id, nat>, waves: seq<seq<WaveTask>>)
    requires forall k :: k in ks ==> k in level
  {
    && (forall i, j :: 0 <= i < |waves| && 0 <= j < |waves[i]| ==>
          Keyed(waves[i][j]) && Tid(waves[i][j]) in ks && level[Tid(waves[i][j])] == i)
    && (forall id :: id in ks ==> exists i, j :: 0 <= i < |waves| && 0 <= j < |waves[i]| && Tid(waves[i][j]) == id)
  }

  lemma WavesByLevel(ks: seq<Id>, table: map<Id, WaveTask>, level: map<Id, nat>, waves: seq<seq<WaveTask>>)
    requires forall k :: k in ks ==> k in table && k in level
    requires forall k :: k in ks ==> Keyed(table[k]) && Tid(table[k]) == k
    requires waves == Buckets(ks, table, level)
    ensures ByLevel(ks, level, waves)
  {
    forall i, j | 0 <= i < |waves| && 0 <= j < |waves[i]|
      ensures Keyed(waves[i][j]) && Tid(waves[i][j]) in ks && level[Tid(waves[i][j])] == i
    {
      var k := BucketHolds(ks, table, level, i, j);
    }
    forall id | id in ks
      ensures exists i, j :: 0 <= i < |waves| && 0 <= j < |waves[i]| && Tid(waves[i][j]) == id
    {
      var n :| 0 <= n < |ks| && ks[n] == id;
      InBucket(ks, table, level, n);
      var w := waves[level[id]];
      var j :| 0 <= j < |w| && w[j] == table[id];
      assert Tid(waves[level[id]][j]) == id;
    }
  }

  /** Without dependencies any schedule is in order. */
  lemma FlatIsOrdered(tasks: seq<WaveTask>)
    requires Named(tasks)
    ensures Names([tasks], PlanIds(tasks)) && Ordered([tasks], map[])
  {
    KeyOrderDistinct(tasks, |tasks|);
    forall j | 0 <= j < |tasks|
      ensures Keyed(tasks[j]) && Tid(tasks[j]) in PlanIds(tasks)
    {
      assert tasks[j] in tasks;
      assert Key(tasks[j], j) in KeyOrder(tasks, |tasks|);
    }
    KeyedIds(tasks);
    forall id | id in PlanIds(tasks)
      ensures Occurs([tasks], id)
    {
      assert id in Table(tasks, |tasks|);
      var i :| 0 <= i < |tasks| && id == Key(tasks[i], i) && Table(tasks, |tasks|)[id] == tasks[i];
      assert Tid([tasks][0][i]) == id;
    }
  }

  /**
    A task is dispatched exactly when no proper ancestor is in `aborted_task_ids`,
    and exactly when none timed out, failed or aborted on its own account.
   */
  ghost predicate AncestorRule(levels: seq<seq<WaveTask>>, dag: Graph, ids: set<Id>, log: seq<Event>)
    requires AllAt(levels, log)
  {
    forall n :: 0 <= n < |log| ==>
      && (!log[n].fate.Blocked? <==> AncestorsClear(levels, dag, ids, log, n))
      && (!log[n].fate.Blocked? <==> !BlockedByAncestor(levels, dag, ids, log, n))
  }

  /**
    The schedule: one level without a graph, else the waves of the leveller, which
    hold all the distinct tasks, in order if they are named and the graph is acyclic.
   */
  method Schedule(tasks: seq<WaveTask>, dag: Graph) returns (levels: seq<seq<WaveTask>>)
    ensures if dag == map[] then levels == [tasks] else exists level :: GroupedBy(tasks, dag, level, levels)
    ensures dag != map[] ==>
              multiset(Flatten(levels)) == multiset(TasksOf(KeyOrder(tasks, |tasks|), Table(tasks, |tasks|)))
    ensures Named(tasks) && Acyclic(dag, PlanIds(tasks)) ==> Names(levels, PlanIds(tasks)) && Ordered(levels, dag)
  {
    if dag != map[] {
      levels := TopologicalSort(tasks, dag);
      ghost var level :| GroupedBy(tasks, dag, level, levels);
      WavesPartition(KeyOrder(tasks, |tasks|), Table(tasks, |tasks|), level);
      if Named(tasks) && Acyclic(dag, PlanIds(tasks)) {
        WavesAreOrdered(tasks, dag, level, levels);
      }
    } else {
      levels := [tasks];
      if Named(tasks) {
        FlatIsOrdered(tasks);
      }
    }
  }

  method RunWave(tasks: seq<WaveTask>, dag: Graph, w: Workers)
    returns (summary: Option<Summary>, levels: seq<seq<WaveTask>>, log: seq<Event>)
    ensures if dag == map[] then levels == [tasks] else exists level :: GroupedBy(tasks, dag, level, levels)
    ensures dag != map[] ==>
              multiset(Flatten(levels)) == multiset(TasksOf(KeyOrder(tasks, |tasks|), Table(tasks, |tasks|)))
    ensures History(levels, dag, w, log) && summary == Summarise(Transcript(levels, log))
    ensures summary.Some? ==> Tells(summary.value, log)
    ensures WellFormed(levels, w) ==> summary.Some? && |Transcript(levels, log)| == Scheduled(levels)
    ensures Named(tasks) && Acyclic(dag, PlanIds(tasks)) ==>
              Names(levels, PlanIds(tasks)) && AncestorRule(levels, dag, PlanIds(tasks), log)
  {
    levels := Schedule(tasks, dag);
    var results, aborted;
    results, aborted, log := RunLevels(levels, dag, w);
    summary := Summarise(results);
    if summary.Some? {
      SummaryTells(levels, log);
    }
    if WellFormed(levels, w) {
      OneRowEach(levels, dag, w, log);
    }
    if Named(tasks) && Acyclic(dag, PlanIds(tasks)) {
      RuleHolds(levels, dag, PlanIds(tasks), log);
    }
  }

  lemma RuleHolds(levels: seq<seq<WaveTask>>, dag: Graph, ids: set<Id>, log: seq<Event>)
    requires Worked(levels, dag, ids, log)
    ensures AncestorRule(levels, dag, ids, log)
  {
    forall n | 0 <= n < |log|
      ensures !log[n].fate.Blocked? <==> AncestorsClear(levels, dag, ids, log, n)
      ensures !log[n].fate.Blocked? <==> !BlockedByAncestor(levels, dag, ids, log, n)
    {
      DispatchedIffAncestorsClear(levels, dag, ids, log, n);
    }
  }
}
