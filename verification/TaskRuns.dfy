/**
  What the task-store contract guarantees over whole runs, for every sequence of
  calls by any callers: bounded retry, and exclusive leases.
 */
module TaskRuns {
  import opened Wrappers
  import opened TaskRows

  /** This event claims the task `id`. */
  predicate Claims(s: Store, e: Event, id: Key)
  {
    e.op.Claim? && ClaimKey(s, e.now) == Some(id)
  }

  /** What an event does to one row, given whether the event claims it. */
  function RowAfter(id: Key, r: Row, maxAttempts: int, e: Event, claims: bool): Row {
    match e.op
    case Enqueue(_, _) => r
    case Claim(runtime, ttl) => if claims then Claimed(r, e.now, runtime, ttl) else r
    case Heartbeat(other, ttl) => if other == id && r.status == Running then Renewed(r, e.now, ttl) else r
    case Complete(other, result) => if other == id then Completed(r, result) else r
    case Fail(other, error, retryable) => if other == id then Failed(r, error, retryable, maxAttempts) else r
    case ReclaimExpired => Reclaimed(r, e.now)
  }

  lemma RowStep(s: Store, maxAttempts: int, e: Event, id: Key)
    requires id in s.rows
    ensures var t := Apply(s, maxAttempts, e);
            && id in t.rows
            && t.rows[id] == RowAfter(id, s.rows[id], maxAttempts, e, Claims(s, e, id))
    ensures Claims(s, e, id) ==> Claimable(s.rows[id], e.now)
  {
    ApplyGrows(s, maxAttempts, e);
  }

  lemma ClaimsExisting(s: Store, e: Event, id: Key)
    requires Claims(s, e, id)
    ensures id in s.rows
  {
  }

  predicate ClaimsAt(s: Store, maxAttempts: int, run: seq<Event>, k: nat, id: Key)
    requires k < |run|
  {
    Claims(Run(s, maxAttempts, run, k), run[k], id)
  }

  // ---------------------------------------------------------------------------
  // Bounded retry
  // ---------------------------------------------------------------------------

  /** A task that may still be worked on has attempts left. */
  predicate HasBudget(r: Row, maxAttempts: int) {
    r.status == Queued || r.status == Running ==> r.attempts < maxAttempts
  }

  ghost predicate Budgeted(s: Store, maxAttempts: int) {
    forall k :: k in s.rows ==> HasBudget(s.rows[k], maxAttempts)
  }

  lemma BudgetStep(s: Store, maxAttempts: int, e: Event)
    requires Budgeted(s, maxAttempts) && maxAttempts >= 1
    ensures Budgeted(Apply(s, maxAttempts, e), maxAttempts)
  {
  }

  /** In every run, queued and running tasks have fewer than `maxAttempts` attempts. */
  lemma {:induction false} BudgetKept(s: Store, maxAttempts: int, run: seq<Event>, n: nat)
    requires Budgeted(s, maxAttempts) && maxAttempts >= 1 && n <= |run|
    ensures Budgeted(Run(s, maxAttempts, run, n), maxAttempts)
    decreases n
  {
    if n > 0 {
      BudgetKept(s, maxAttempts, run, n - 1);
      BudgetStep(Run(s, maxAttempts, run, n - 1), maxAttempts, run[n - 1]);
    }
  }

  /** Attempts never decrease. */
  lemma {:induction false} AttemptsGrow(s: Store, maxAttempts: int, run: seq<Event>, m: nat, n: nat, id: Key)
    requires m <= n <= |run|
    requires id in Run(s, maxAttempts, run, m).rows
    ensures id in Run(s, maxAttempts, run, n).rows
    ensures Run(s, maxAttempts, run, m).rows[id].attempts <= Run(s, maxAttempts, run, n).rows[id].attempts
    decreases n
  {
    if m < n {
      AttemptsGrow(s, maxAttempts, run, m, n - 1, id);
      RowStep(Run(s, maxAttempts, run, n - 1), maxAttempts, run[n - 1], id);
    }
  }

  /** A task whose attempts have reached the bound is never claimed again, whatever callers do. */
  lemma ExhaustedNeverClaimed(s: Store, maxAttempts: int, run: seq<Event>, m: nat, n: nat, id: Key)
    requires Budgeted(s, maxAttempts) && maxAttempts >= 1
    requires m <= n < |run| && id in Run(s, maxAttempts, run, m).rows
    requires Run(s, maxAttempts, run, m).rows[id].attempts >= maxAttempts
    ensures !ClaimsAt(s, maxAttempts, run, n, id)
  {
    var before := Run(s, maxAttempts, run, n);
    AttemptsGrow(s, maxAttempts, run, m, n, id);
    BudgetKept(s, maxAttempts, run, n);
    RowStep(before, maxAttempts, run[n], id);
    assert HasBudget(before.rows[id], maxAttempts);
  }

  /** Event `k` is a `fail` that puts the task back in the queue. */
  predicate Requeues(s: Store, maxAttempts: int, run: seq<Event>, k: nat, id: Key)
    requires k < |run|
  {
    var after := Run(s, maxAttempts, run, k + 1);
    run[k].op.Fail? && run[k].op.id == id && id in after.rows && after.rows[id].status == Queued
  }

  function RequeueCount(s: Store, maxAttempts: int, run: seq<Event>, n: nat, id: Key): nat
    requires n <= |run|
  {
    if n == 0 then 0
    else RequeueCount(s, maxAttempts, run, n - 1, id) + if Requeues(s, maxAttempts, run, n - 1, id) then 1 else 0
  }

  /** `fail` requeues one task at most `maxAttempts - 1` times in a whole run. */
  lemma {:induction false} RequeuesBounded(s: Store, maxAttempts: int, run: seq<Event>, n: nat, id: Key)
    requires maxAttempts >= 1 && n <= |run|
    ensures RequeueCount(s, maxAttempts, run, n, id) <= maxAttempts - 1
    ensures var now := Run(s, maxAttempts, run, n).rows;
            RequeueCount(s, maxAttempts, run, n, id) <= if id in now then now[id].attempts else 0
    decreases n
  {
    if n > 0 {
      RequeuesBounded(s, maxAttempts, run, n - 1, id);
      var before := Run(s, maxAttempts, run, n - 1);
      if id in before.rows {
        RowStep(before, maxAttempts, run[n - 1], id);
      }
    }
  }

  /** Event `k` takes the task away from a worker whose lease has lapsed. */
  predicate LapsesAt(s: Store, maxAttempts: int, run: seq<Event>, k: nat, id: Key)
    requires k < |run|
  {
    var before := Run(s, maxAttempts, run, k);
    && id in before.rows && Expired(before.rows[id], run[k].now)
    && (run[k].op.ReclaimExpired? || Claims(before, run[k], id))
  }

  function ClaimCount(s: Store, maxAttempts: int, run: seq<Event>, n: nat, id: Key): nat
    requires n <= |run|
  {
    if n == 0 then 0
    else ClaimCount(s, maxAttempts, run, n - 1, id) + if ClaimsAt(s, maxAttempts, run, n - 1, id) then 1 else 0
  }

  function LapseCount(s: Store, maxAttempts: int, run: seq<Event>, n: nat, id: Key): nat
    requires n <= |run|
  {
    if n == 0 then 0
    else LapseCount(s, maxAttempts, run, n - 1, id) + if LapsesAt(s, maxAttempts, run, n - 1, id) then 1 else 0
  }

  predicate Waiting(s: Store, id: Key) {
    id in s.rows && s.rows[id].status == Queued
  }

  /**
    A claim uses up a place in the queue, which the task got when it was added,
    requeued or reclaimed, or is a lapse.
   */
  lemma {:induction false} ClaimsAccounted(s: Store, maxAttempts: int, run: seq<Event>, n: nat, id: Key)
    requires n <= |run|
    ensures ClaimCount(s, maxAttempts, run, n, id) + (if Waiting(Run(s, maxAttempts, run, n), id) then 1 else 0)
         <= 1 + RequeueCount(s, maxAttempts, run, n, id) + LapseCount(s, maxAttempts, run, n, id)
    ensures id !in Run(s, maxAttempts, run, n).rows ==>
              && ClaimCount(s, maxAttempts, run, n, id) == 0
    decreases n
  {
    if n > 0 {
      ClaimsAccounted(s, maxAttempts, run, n - 1, id);
      var before, e := Run(s, maxAttempts, run, n - 1), run[n - 1];
      if id in before.rows {
        RowStep(before, maxAttempts, e, id);
      } else {
        assert Claims(before, e, id) ==> id in before.rows;
      }
    }
  }

  /**
    What bounds the claims: in every run a task is claimed at most `maxAttempts`
    times more often than a lease on it lapsed.
   */
  lemma ClaimsBounded(s: Store, maxAttempts: int, run: seq<Event>, n: nat, id: Key)
    requires maxAttempts >= 1 && n <= |run|
    ensures ClaimCount(s, maxAttempts, run, n, id) <= maxAttempts + LapseCount(s, maxAttempts, run, n, id)
  {
    ClaimsAccounted(s, maxAttempts, run, n, id);
    RequeuesBounded(s, maxAttempts, run, n, id);
  }

  /** The run in which a worker claims the oldest task every two seconds, on a one-second lease, and always dies. */
  function CrashRun(n: nat): seq<Event> {
    seq(n, k requires 0 <= k < n => Event(2.0 * k as real, Claim("worker", 1.0)))
  }

  /** The bound counts reported failures only: a task whose workers keep dying is claimed without limit. */
  lemma {:induction false} CrashesAreNotCounted(id: Key, r: Row, maxAttempts: int, n: nat, k: nat)
    requires r.status == Queued && k <= n
    ensures var t := Run(Store([id], map[id := r]), maxAttempts, CrashRun(n), k);
            t.order == [id] && ClaimableAt(t.rows, id, 2.0 * k as real) && t.rows[id].attempts == r.attempts
    ensures forall m :: 0 <= m < k ==> ClaimsAt(Store([id], map[id := r]), maxAttempts, CrashRun(n), m, id)
    decreases k
  {
    if k > 0 {
      CrashesAreNotCounted(id, r, maxAttempts, n, k - 1);
      var before, e := Run(Store([id], map[id := r]), maxAttempts, CrashRun(n), k - 1), CrashRun(n)[k - 1];
      assert ClaimKey(before, e.now) == Some(id);
      RowStep(before, maxAttempts, e, id);
    }
  }

  lemma {:induction false} ClaimEachTime(s: Store, maxAttempts: int, run: seq<Event>, n: nat, id: Key)
    requires n <= |run| && forall m :: 0 <= m < n ==> ClaimsAt(s, maxAttempts, run, m, id)
    ensures ClaimCount(s, maxAttempts, run, n, id) == n
    decreases n
  {
    if n > 0 {
      ClaimEachTime(s, maxAttempts, run, n - 1, id);
    }
  }

  /** So there is no bound in terms of the attempts: any number of claims is possible while they stand still. */
  lemma ClaimsUnbounded(id: Key, r: Row, maxAttempts: int, n: nat)
    requires r.status == Queued
    ensures var s := Store([id], map[id := r]);
            && ClaimCount(s, maxAttempts, CrashRun(n), n, id) == n
            && id in Run(s, maxAttempts, CrashRun(n), n).rows
            && Run(s, maxAttempts, CrashRun(n), n).rows[id].attempts == r.attempts
  {
    CrashesAreNotCounted(id, r, maxAttempts, n, n);
    ClaimEachTime(Store([id], map[id := r]), maxAttempts, CrashRun(n), n, id);
  }

  /** Workers die on the first `lapses` leases; then every worker reports a failure that may be retried. */
  function TightEvent(id: Key, lapses: nat, k: nat): Event {
    Event(2.0 * k as real,
          if k > lapses && (k - lapses) % 2 == 1 then Fail(id, "error", true) else Claim("worker", 1.0))
  }

  function TightRun(id: Key, maxAttempts: int, lapses: nat): seq<Event>
    requires maxAttempts >= 1
  {
    seq(lapses + 2 * maxAttempts - 1, k requires k >= 0 => TightEvent(id, lapses, k))
  }

  /** The task after `k` events of that run. */
  predicate TightRow(r: Row, lapses: nat, k: nat) {
    if k == 0 then r.status == Queued && r.attempts == 0
    else if k <= lapses + 1 then r.status == Running && r.attempts == 0 && r.leaseUntil == 2.0 * k as real - 1.0
    else r.attempts == (k - lapses) / 2 && r.status == if (k - lapses) % 2 == 0 then Queued else Running
  }

  lemma TightStep(t: Store, id: Key, maxAttempts: int, lapses: nat, k: nat)
    requires t.order == [id] && id in t.rows && TightRow(t.rows[id], lapses, k)
    requires k < lapses + 2 * maxAttempts - 1
    ensures var e := TightEvent(id, lapses, k);
            var t' := Apply(t, maxAttempts, e);
            && t'.order == [id] && id in t'.rows && TightRow(t'.rows[id], lapses, k + 1)
            && (e.op.Claim? ==> Claims(t, e, id))
            && (Expired(t.rows[id], e.now) && Claims(t, e, id) <==> 0 < k <= lapses)
  {
    var e := TightEvent(id, lapses, k);
    if e.op.Claim? {
      assert ClaimableAt(t.rows, id, e.now);
      assert ClaimKey(t, e.now) == Some(id);
    }
    RowStep(t, maxAttempts, e, id);
  }

  function TightClaims(lapses: nat, k: nat): nat {
    if k <= lapses then k else lapses + (k - lapses + 1) / 2
  }

  function TightLapses(lapses: nat, k: nat): nat {
    if k == 0 then 0 else if k <= lapses then k - 1 else lapses
  }

  lemma TightSums(id: Key, lapses: nat, k: nat)
    ensures TightClaims(lapses, k + 1) == TightClaims(lapses, k) + if TightEvent(id, lapses, k).op.Claim? then 1 else 0
    ensures TightLapses(lapses, k + 1) == TightLapses(lapses, k) + if 0 < k <= lapses then 1 else 0
  {
  }

  /** The store and the counts after `k` events. */
  ghost predicate TightAt(s: Store, id: Key, maxAttempts: int, lapses: nat, k: nat)
    requires maxAttempts >= 1 && k <= |TightRun(id, maxAttempts, lapses)|
  {
    var run := TightRun(id, maxAttempts, lapses);
    var t := Run(s, maxAttempts, run, k);
    && t.order == [id] && id in t.rows && TightRow(t.rows[id], lapses, k)
    && ClaimCount(s, maxAttempts, run, k, id) == TightClaims(lapses, k)
    && LapseCount(s, maxAttempts, run, k, id) == TightLapses(lapses, k)
  }

  lemma TightNext(s: Store, id: Key, maxAttempts: int, lapses: nat, k: nat)
    requires maxAttempts >= 1 && k < |TightRun(id, maxAttempts, lapses)| && TightAt(s, id, maxAttempts, lapses, k)
    ensures TightAt(s, id, maxAttempts, lapses, k + 1)
  {
    var run := TightRun(id, maxAttempts, lapses);
    assert run[k] == TightEvent(id, lapses, k);
    TightStep(Run(s, maxAttempts, run, k), id, maxAttempts, lapses, k);
    TightSums(id, lapses, k);
  }

  lemma {:induction false} TightCounts(s: Store, id: Key, maxAttempts: int, lapses: nat, k: nat)
    requires maxAttempts >= 1 && k <= |TightRun(id, maxAttempts, lapses)| && TightAt(s, id, maxAttempts, lapses, 0)
    ensures TightAt(s, id, maxAttempts, lapses, k)
    decreases k
  {
    if k > 0 {
      TightCounts(s, id, maxAttempts, lapses, k - 1);
      TightNext(s, id, maxAttempts, lapses, k - 1);
    }
  }

  /** That bound cannot be lowered: for any `maxAttempts` and any number of lapses some run reaches it. */
  lemma BoundReached(id: Key, r: Row, maxAttempts: int, lapses: nat)
    requires maxAttempts >= 1 && r.status == Queued && r.attempts == 0
    ensures var s, run := Store([id], map[id := r]), TightRun(id, maxAttempts, lapses);
            && LapseCount(s, maxAttempts, run, |run|, id) == lapses
            && ClaimCount(s, maxAttempts, run, |run|, id) == maxAttempts + lapses
  {
    TightCounts(Store([id], map[id := r]), id, maxAttempts, lapses, |TightRun(id, maxAttempts, lapses)|);
  }

  // ---------------------------------------------------------------------------
  // Leases
  // ---------------------------------------------------------------------------

  /** The clock does not run backwards. */
  ghost predicate Monotone(run: seq<Event>) {
    forall k, l :: 0 <= k <= l < |run| ==> run[k].now <= run[l].now
  }

  /** Event `k` is a heartbeat for the task, and reports that it renewed the lease. */
  predicate RenewsAt(s: Store, maxAttempts: int, run: seq<Event>, k: nat, id: Key)
    requires k < |run|
  {
    run[k].op.Heartbeat? && run[k].op.id == id && OutputOf(Run(s, maxAttempts, run, k), run[k]) == Flag(true)
  }

  /** The deadline set by the claim at `i`, as last renewed before event `k`. */
  function Deadline(s: Store, maxAttempts: int, run: seq<Event>, i: nat, k: nat, id: Key): real
    requires i < k <= |run| && run[i].op.Claim?
  {
    if k == i + 1 then run[i].now + run[i].op.ttl
    else if RenewsAt(s, maxAttempts, run, k - 1, id) then run[k - 1].now + run[k - 1].op.ttl
    else Deadline(s, maxAttempts, run, i, k - 1, id)
  }

  /** The lease is held, or the task was reclaimed after the deadline, or it is finished. */
  predicate HeldOrLapsed(r: Row, deadline: real, now: real) {
    match r.status
    case Running => r.leaseUntil == deadline
    case Queued => deadline <= now
    case Done => true
    case Dead => false
  }

  lemma {:induction false} LeaseFollowed(s: Store, maxAttempts: int, run: seq<Event>, i: nat, k: nat, id: Key)
    requires Monotone(run)
    requires i < k <= |run| && ClaimsAt(s, maxAttempts, run, i, id)
    requires forall m :: i < m < k ==> !ClaimsAt(s, maxAttempts, run, m, id)
    requires forall m :: i < m < k && run[m].op.Fail? ==> run[m].op.id != id
    ensures var t := Run(s, maxAttempts, run, k);
            id in t.rows && HeldOrLapsed(t.rows[id], Deadline(s, maxAttempts, run, i, k, id), run[k - 1].now)
    decreases k
  {
    var before := Run(s, maxAttempts, run, k - 1);
    if k == i + 1 {
      ClaimsExisting(before, run[i], id);
      RowStep(before, maxAttempts, run[i], id);
    } else {
      LeaseFollowed(s, maxAttempts, run, i, k - 1, id);
      RowStep(before, maxAttempts, run[k - 1], id);
      assert run[k - 2].now <= run[k - 1].now;
      assert !ClaimsAt(s, maxAttempts, run, k - 1, id);
    }
  }

  /**
    Lease exclusion: when a task is claimed a second time with no `fail` on it
    in between, the first claim's deadline, as last renewed, has passed.
   */
  lemma LeaseExclusion(s: Store, maxAttempts: int, run: seq<Event>, i: nat, j: nat, id: Key)
    requires Monotone(run)
    requires i < j < |run| && ClaimsAt(s, maxAttempts, run, i, id) && ClaimsAt(s, maxAttempts, run, j, id)
    requires forall m :: i < m < j ==> !ClaimsAt(s, maxAttempts, run, m, id)
    requires forall m :: i < m < j && run[m].op.Fail? ==> run[m].op.id != id
    ensures Deadline(s, maxAttempts, run, i, j, id) <= run[j].now
  {
    LeaseFollowed(s, maxAttempts, run, i, j, id);
    RowStep(Run(s, maxAttempts, run, j), maxAttempts, run[j], id);
    assert run[j - 1].now <= run[j].now;
  }

  /** For any two claims, adjacent or not: the first lease ended, at the latest when the task was next claimed. */
  lemma {:induction false} LeaseEndsBeforeReclaim(s: Store, maxAttempts: int, run: seq<Event>, i: nat, j: nat, id: Key)
    returns (next: nat)
    requires Monotone(run)
    requires i < j < |run| && ClaimsAt(s, maxAttempts, run, i, id) && ClaimsAt(s, maxAttempts, run, j, id)
    requires forall m :: i < m < j && run[m].op.Fail? ==> run[m].op.id != id
    ensures i < next <= j && ClaimsAt(s, maxAttempts, run, next, id)
    ensures forall m :: i < m < next ==> !ClaimsAt(s, maxAttempts, run, m, id)
    ensures Deadline(s, maxAttempts, run, i, next, id) <= run[next].now <= run[j].now
    decreases j
  {
    if m :| i < m < j && ClaimsAt(s, maxAttempts, run, m, id) {
      next := LeaseEndsBeforeReclaim(s, maxAttempts, run, i, m, id);
    } else {
      next := j;
      LeaseExclusion(s, maxAttempts, run, i, j, id);
    }
  }
}
