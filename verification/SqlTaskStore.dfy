/**
  `PostgresTaskStore`: a table keyed by task id, each method one INSERT or
  UPDATE, and the simulation of its serial runs by the in-memory contract.
 */
module SqlTaskStore {
  import opened Wrappers
  import opened TaskRows

  /** A table row; `lease` is NULL until the first claim and again after every failure. */
  datatype SqlRow = SqlRow(
    payload: Payload,
    status: Status,
    attempts: nat,
    lease: Option<real>,
    runtimeId: string,
    result: Option<string>,
    error: string,
    createdAt: real)

  type Table = map<Key, SqlRow>

  /** `lease_until <= now()`, which a NULL lease does not satisfy. */
  predicate LeaseLapsed(r: SqlRow, now: real) {
    r.lease.Some? && r.lease.value <= now
  }

  predicate SqlClaimable(r: SqlRow, now: real) {
    r.status == Queued || (r.status == Running && LeaseLapsed(r, now))
  }

  /** `k` may be what the claim's sub-select returns: claimable, and created no later than any other claimable row. */
  predicate Selected(t: Table, now: real, k: Key) {
    && k in t && SqlClaimable(t[k], now)
    && forall j :: j in t && SqlClaimable(t[j], now) ==> t[k].createdAt <= t[j].createdAt
  }

  function SqlClaimed(r: SqlRow, now: real, runtime: string, ttl: real): SqlRow {
    r.(status := Running, runtimeId := runtime, lease := Some(now + ttl))
  }

  function SqlFailed(r: SqlRow, error: string, retryable: bool, maxAttempts: int): SqlRow {
    var again := retryable && r.attempts + 1 < maxAttempts;
    r.(attempts := r.attempts + 1,
       error := error,
       status := if again then Queued else Dead,
       runtimeId := if again then "" else r.runtimeId,
       lease := None)
  }

  predicate SqlExpired(r: SqlRow, now: real) {
    r.status == Running && LeaseLapsed(r, now)
  }

  function SqlExpiredKeys(t: Table, now: real): set<Key> {
    set k | k in t && SqlExpired(t[k], now)
  }

  function SqlReclaimed(r: SqlRow, now: real): SqlRow {
    if SqlExpired(r, now) then r.(status := Queued, runtimeId := "") else r
  }

  function SqlRenewed(t: Table, now: real, id: Key, ttl: real): Table {
    if id in t && t[id].status == Running then t[id := t[id].(lease := Some(now + ttl))] else t
  }

  class PostgresTaskStore {
    const maxAttempts: int
    var table: Table

    constructor (maxAttempts: int := 3)
      ensures table == map[] && this.maxAttempts == maxAttempts
    {
      this.maxAttempts, table := maxAttempts, map[];
    }

    method Enqueue(now: real, id: Key, payload: Payload) returns (r: Key)
      modifies this
      ensures SqlStep(old(table), maxAttempts, Event(now, Op.Enqueue(id, payload)), table, Id(r))
    {
      if id !in table {
        table := table[id := SqlRow(payload, Queued, 0, None, "", None, "", now)];
      }
      r := id;
    }

    method Claim(now: real, runtime: string, ttl: real) returns (claimed: Option<Key>)
      modifies this
      ensures SqlStep(old(table), maxAttempts, Event(now, Op.Claim(runtime, ttl)), table, Task(claimed))
    {
      if exists k :: k in table && SqlClaimable(table[k], now) {
        SomeSelected(table, now);
        var k :| k in table && Selected(table, now, k);
        table := table[k := SqlClaimed(table[k], now, runtime, ttl)];
        claimed := Some(k);
      } else {
        claimed := None;
      }
    }

    method Heartbeat(now: real, id: Key, ttl: real) returns (renewed: bool)
      modifies this
      ensures SqlStep(old(table), maxAttempts, Event(now, Op.Heartbeat(id, ttl)), table, Flag(renewed))
    {
      renewed := id in table && table[id].status == Running;
      if renewed {
        table := table[id := table[id].(lease := Some(now + ttl))];
      }
    }

    method Complete(now: real, id: Key, result: Option<string>)
      modifies this
      ensures SqlStep(old(table), maxAttempts, Event(now, Op.Complete(id, result)), table, Nothing)
    {
      if id in table {
        table := table[id := table[id].(status := Done, result := result)];
      }
    }

    /** Every expression of the UPDATE reads the row as it was. */
    method Fail(now: real, id: Key, error: string, retryable: bool)
      modifies this
      ensures SqlStep(old(table), maxAttempts, Event(now, Op.Fail(id, error, retryable)), table, Nothing)
      ensures forall s :: Simulates(s, old(table)) ==> Simulates(FailIn(s, maxAttempts, id, error, retryable), table)
    {
      if id in table {
        var was := table[id];
        var status := if retryable && was.attempts + 1 < maxAttempts then Queued else Dead;
        var runtimeId := if retryable && was.attempts + 1 < maxAttempts then "" else was.runtimeId;
        table := table[id := was.(attempts := was.attempts + 1, error := error, status := status,
                                  runtimeId := runtimeId, lease := None)];
      }
      FailSimulatedAll(old(table), maxAttempts, Event(now, Op.Fail(id, error, retryable)), table);
    }

    method ReclaimExpired(now: real) returns (reclaimed: nat)
      modifies this
      ensures SqlStep(old(table), maxAttempts, Event(now, Op.ReclaimExpired), table, Count(reclaimed))
    {
      reclaimed := |SqlExpiredKeys(table, now)|;
      table := map k | k in table :: SqlReclaimed(table[k], now);
    }
  }

  /** A claimable row implies an earliest one. */
  lemma SomeSelected(t: Table, now: real)
    requires exists k :: k in t && SqlClaimable(t[k], now)
    ensures exists k :: Selected(t, now, k)
  {
    var candidates := set k | k in t && SqlClaimable(t[k], now);
    var some :| some in t && SqlClaimable(t[some], now);
    assert some in candidates;
    var k := Earliest(t, candidates);
    assert Selected(t, now, k);
  }

  lemma {:induction false} Earliest(t: Table, ks: set<Key>) returns (k: Key)
    requires ks != {} && forall j :: j in ks ==> j in t
    ensures k in ks && forall j :: j in ks ==> t[k].createdAt <= t[j].createdAt
    decreases ks
  {
    var first :| first in ks;
    if ks == {first} {
      k := first;
    } else {
      var best := Earliest(t, ks - {first});
      k := if t[first].createdAt <= t[best].createdAt then first else best;
    }
  }

  /** What one statement may do to the table and return. */
  ghost predicate SqlStep(t: Table, maxAttempts: int, e: Event, t': Table, output: Output) {
    match e.op
    case Enqueue(id, payload) =>
      && output == Id(id)
      && t' == if id in t then t else t[id := SqlRow(payload, Queued, 0, None, "", None, "", e.now)]
    case Claim(runtime, ttl) =>
      (match output
       case Task(Some(k)) => Selected(t, e.now, k) && t' == t[k := SqlClaimed(t[k], e.now, runtime, ttl)]
       case Task(None) => t' == t && forall k :: k in t ==> !SqlClaimable(t[k], e.now)
       case _ => false)
    case Heartbeat(id, ttl) =>
      output == Flag(id in t && t[id].status == Running) && t' == SqlRenewed(t, e.now, id, ttl)
    case Complete(id, result) =>
      && output == Nothing
      && t' == if id in t then t[id := t[id].(status := Done, result := result)] else t
    case Fail(id, error, retryable) =>
      && output == Nothing
      && t' == if id in t then t[id := SqlFailed(t[id], error, retryable, maxAttempts)] else t
    case ReclaimExpired =>
      && output == Count(|SqlExpiredKeys(t, e.now)|)
      && t' == map k | k in t :: SqlReclaimed(t[k], e.now)
  }

  // ---------------------------------------------------------------------------
  // Simulation
  // ---------------------------------------------------------------------------

  /** Everything a reader of the two stores can see agrees, and the lease does while it matters. */
  predicate SameRow(r: Row, q: SqlRow) {
    && r.payload == q.payload
    && r.status == q.status
    && r.attempts == q.attempts
    && r.runtimeId == q.runtimeId
    && r.result == q.result
    && r.error == q.error
    && (r.status == Running ==> q.lease == Some(r.leaseUntil))
  }

  ghost predicate Simulates(s: Store, t: Table) {
    && Valid(s)
    && s.rows.Keys == t.Keys
    && (forall k :: k in s.rows ==> SameRow(s.rows[k], t[k]))
  }

  lemma ClaimableAgrees(s: Store, t: Table, now: real)
    requires Simulates(s, t)
    ensures forall k :: k in t ==> (SqlClaimable(t[k], now) <==> ClaimableAt(s.rows, k, now))
  {
    forall k | k in t
      ensures SqlClaimable(t[k], now) <==> ClaimableAt(s.rows, k, now)
    {
      assert SameRow(s.rows[k], t[k]);
    }
  }

  /** The creation times in a table. */
  function CreatedIn(t: Table): map<Key, real> {
    map k | k in t :: t[k].createdAt
  }

  /** `a` was created before `b`. */
  predicate Older(created: map<Key, real>, a: Key, b: Key) {
    a in created && b in created && created[a] < created[b]
  }

  /** The first claimable task in insertion order is older than every other claimable one. */
  ghost predicate FirstIsOldest(s: Store, created: map<Key, real>, now: real) {
    var i := FirstClaimable(s.order, s.rows, now);
    forall j :: i < j < |s.order| && ClaimableAt(s.rows, s.order[j], now) ==> Older(created, s.order[i], s.order[j])
  }

  lemma OldestIsSelected(s: Store, t: Table, now: real, k: Key)
    requires Simulates(s, t) && FirstIsOldest(s, CreatedIn(t), now)
    ensures Selected(t, now, k) ==> ClaimKey(s, now) == Some(k)
  {
    ClaimableAgrees(s, t, now);
    if Selected(t, now, k) {
      var j :| 0 <= j < |s.order| && s.order[j] == k;
      var i := FirstClaimable(s.order, s.rows, now);
      assert SqlClaimable(t[s.order[i]], now);
    }
  }

  /**
    A claimable task that the first one is not older than, or one no younger than
    it, is there to be selected instead.
   */
  lemma OtherSelected(s: Store, t: Table, now: real) returns (k: Key)
    requires Simulates(s, t) && !FirstIsOldest(s, CreatedIn(t), now)
    ensures Selected(t, now, k) && ClaimKey(s, now) != Some(k)
  {
    ClaimableAgrees(s, t, now);
    var i := FirstClaimable(s.order, s.rows, now);
    var j :| i < j < |s.order| && ClaimableAt(s.rows, s.order[j], now) && !Older(CreatedIn(t), s.order[i], s.order[j]);
    var others := set k | k in t && SqlClaimable(t[k], now) && k != s.order[i];
    assert s.order[j] in others;
    k := Earliest(t, others);
    assert t[k].createdAt <= t[s.order[j]].createdAt <= t[s.order[i]].createdAt;
  }

  /** The two stores must take the same task exactly when the first claimable one is strictly the oldest. */
  lemma ClaimsAgree(s: Store, t: Table, now: real)
    requires Simulates(s, t)
    ensures (forall k :: Selected(t, now, k) ==> ClaimKey(s, now) == Some(k)) <==> FirstIsOldest(s, CreatedIn(t), now)
  {
    if FirstIsOldest(s, CreatedIn(t), now) {
      forall k | Selected(t, now, k)
        ensures ClaimKey(s, now) == Some(k)
      {
        OldestIsSelected(s, t, now, k);
      }
    } else {
      var k := OtherSelected(s, t, now);
    }
  }

  /** Corresponding updates of one row keep the simulation. */
  lemma RowUpdated(s: Store, t: Table, k: Key, r: Row, q: SqlRow)
    requires Simulates(s, t) && k in t
    requires SameRow(r, q)
    ensures Simulates(SetRow(s, k, r), t[k := q])
  {
  }

  lemma ClaimSimulated(s: Store, t: Table, now: real, runtime: string, ttl: real, k: Key)
    requires Simulates(s, t) && k in t && ClaimKey(s, now) == Some(k)
    ensures Simulates(ClaimIn(s, now, runtime, ttl), t[k := SqlClaimed(t[k], now, runtime, ttl)])
  {
    assert SameRow(s.rows[k], t[k]);
    RowUpdated(s, t, k, Claimed(s.rows[k], now, runtime, ttl), SqlClaimed(t[k], now, runtime, ttl));
  }

  lemma NoClaimSimulated(s: Store, t: Table, now: real, runtime: string, ttl: real)
    requires Simulates(s, t) && forall k :: k in t ==> !SqlClaimable(t[k], now)
    ensures ClaimKey(s, now) == None && ClaimIn(s, now, runtime, ttl) == s
  {
    ClaimableAgrees(s, t, now);
  }

  lemma ExpiryAgrees(s: Store, t: Table, now: real)
    requires Simulates(s, t)
    ensures SqlExpiredKeys(t, now) == ExpiredKeys(s.rows, now)
    ensures forall k :: k in t ==> SameRow(Reclaimed(s.rows[k], now), SqlReclaimed(t[k], now))
  {
    forall k | k in t
      ensures SqlExpired(t[k], now) <==> Expired(s.rows[k], now)
    {
      assert SameRow(s.rows[k], t[k]);
    }
  }

  lemma ReclaimSimulated(s: Store, t: Table, now: real)
    requires Simulates(s, t)
    ensures SqlExpiredKeys(t, now) == ExpiredKeys(s.rows, now)
    ensures Simulates(ReclaimIn(s, now), map k | k in t :: SqlReclaimed(t[k], now))
  {
    ExpiryAgrees(s, t, now);
    assert ReclaimAll(s.rows, now).Keys == s.rows.Keys;
  }

  lemma EnqueueSimulated(s: Store, t: Table, now: real, id: Key, payload: Payload)
    requires Simulates(s, t) && id !in t
    ensures Simulates(EnqueueIn(s, id, payload), t[id := SqlRow(payload, Queued, 0, None, "", None, "", now)])
  {
    EnqueueValid(s, id, payload);
  }

  lemma HeartbeatSimulated(s: Store, t: Table, now: real, id: Key, ttl: real)
    requires Simulates(s, t)
    ensures id in t && t[id].status == Running <==> id in s.rows && s.rows[id].status == Running
    ensures Simulates(HeartbeatIn(s, now, id, ttl), SqlRenewed(t, now, id, ttl))
  {
    if id in t {
      assert SameRow(s.rows[id], t[id]);
      if t[id].status == Running {
        RowUpdated(s, t, id, Renewed(s.rows[id], now, ttl), t[id].(lease := Some(now + ttl)));
      }
    }
  }

  lemma CompleteSimulated(s: Store, t: Table, id: Key, result: Option<string>)
    requires Simulates(s, t)
    ensures Simulates(CompleteIn(s, id, result),
                      if id in t then t[id := t[id].(status := Done, result := result)] else t)
  {
    if id in t {
      assert SameRow(s.rows[id], t[id]);
      RowUpdated(s, t, id, Completed(s.rows[id], result), t[id].(status := Done, result := result));
    }
  }

  lemma FailSimulated(s: Store, t: Table, maxAttempts: int, id: Key, error: string, retryable: bool)
    requires Simulates(s, t)
    ensures Simulates(FailIn(s, maxAttempts, id, error, retryable),
                      if id in t then t[id := SqlFailed(t[id], error, retryable, maxAttempts)] else t)
  {
    if id in t {
      assert SameRow(s.rows[id], t[id]);
      RowUpdated(s, t, id, Failed(s.rows[id], error, retryable, maxAttempts),
                 SqlFailed(t[id], error, retryable, maxAttempts));
    }
  }

  /** Whatever store the table stood for, after `fail` it stands for that store after `fail`. */
  lemma FailSimulatedAll(t: Table, maxAttempts: int, e: Event, t': Table)
    requires e.op.Fail? && SqlStep(t, maxAttempts, e, t', Nothing)
    ensures forall s :: Simulates(s, t) ==> Simulates(FailIn(s, maxAttempts, e.op.id, e.op.error, e.op.retryable), t')
  {
    forall s | Simulates(s, t)
      ensures Simulates(FailIn(s, maxAttempts, e.op.id, e.op.error, e.op.retryable), t')
    {
      FailSimulated(s, t, maxAttempts, e.op.id, e.op.error, e.op.retryable);
    }
  }

  lemma HeartbeatStep(s: Store, t: Table, maxAttempts: int, e: Event, t': Table, output: Output)
    requires Simulates(s, t) && SqlStep(t, maxAttempts, e, t', output) && e.op.Heartbeat?
    ensures output == OutputOf(s, e) && Simulates(Apply(s, maxAttempts, e), t')
  {
    HeartbeatSimulated(s, t, e.now, e.op.id, e.op.ttl);
  }

  lemma CompleteStep(s: Store, t: Table, maxAttempts: int, e: Event, t': Table, output: Output)
    requires Simulates(s, t) && SqlStep(t, maxAttempts, e, t', output) && e.op.Complete?
    ensures output == OutputOf(s, e) && Simulates(Apply(s, maxAttempts, e), t')
  {
    CompleteSimulated(s, t, e.op.id, e.op.result);
  }

  lemma FailStep(s: Store, t: Table, maxAttempts: int, e: Event, t': Table, output: Output)
    requires Simulates(s, t) && SqlStep(t, maxAttempts, e, t', output) && e.op.Fail?
    ensures output == OutputOf(s, e) && Simulates(Apply(s, maxAttempts, e), t')
  {
    FailSimulated(s, t, maxAttempts, e.op.id, e.op.error, e.op.retryable);
  }

  lemma ClaimStep(s: Store, t: Table, maxAttempts: int, e: Event, t': Table, output: Output)
    requires Simulates(s, t) && SqlStep(t, maxAttempts, e, t', output) && e.op.Claim?
    requires FirstIsOldest(s, CreatedIn(t), e.now)
    ensures output == OutputOf(s, e) && Simulates(Apply(s, maxAttempts, e), t')
  {
    if output.claimed.Some? {
      OldestIsSelected(s, t, e.now, output.claimed.value);
      ClaimSimulated(s, t, e.now, e.op.runtime, e.op.ttl, output.claimed.value);
    } else {
      NoClaimSimulated(s, t, e.now, e.op.runtime, e.op.ttl);
    }
  }

  /** Every statement is matched by the in-memory operation, with the same answer, a claim on the condition above. */
  lemma StepSimulated(s: Store, t: Table, maxAttempts: int, e: Event, t': Table, output: Output)
    requires Simulates(s, t) && SqlStep(t, maxAttempts, e, t', output)
    requires e.op.Claim? ==> FirstIsOldest(s, CreatedIn(t), e.now)
    ensures output == OutputOf(s, e) && Simulates(Apply(s, maxAttempts, e), t')
  {
    match e.op
    case Enqueue(id, payload) =>
      if id !in t {
        EnqueueSimulated(s, t, e.now, id, payload);
      }
    case Claim(_, _) => ClaimStep(s, t, maxAttempts, e, t', output);
    case ReclaimExpired => ReclaimSimulated(s, t, e.now);
    case Heartbeat(_, _) => HeartbeatStep(s, t, maxAttempts, e, t', output);
    case Complete(_, _) => CompleteStep(s, t, maxAttempts, e, t', output);
    case Fail(_, _, _) => FailStep(s, t, maxAttempts, e, t', output);
  }

  // ---------------------------------------------------------------------------
  // Whole runs
  // ---------------------------------------------------------------------------

  /** A serial run of the SQL store, up to event `m`: the tables between the statements, and what each returned. */
  ghost predicate SqlRun(tables: seq<Table>, maxAttempts: int, run: seq<Event>, outputs: seq<Output>, m: nat) {
    && m <= |run|
    && |tables| == m + 1
    && |outputs| == m
    && tables[0] == map[]
    && forall k :: 0 <= k < m ==> SqlStep(tables[k], maxAttempts, run[k], tables[k + 1], outputs[k])
  }

  /** When each task in the store was enqueued first. */
  function Created(run: seq<Event>, n: nat): map<Key, real>
    requires n <= |run|
  {
    if n == 0 then map[]
    else
      var before, e := Created(run, n - 1), run[n - 1];
      if e.op.Enqueue? && e.op.id !in before then before[e.op.id := e.now] else before
  }

  /** At the claim `n` of the in-memory run, the first claimable task was enqueued before every other claimable one. */
  ghost predicate UntiedAt(maxAttempts: int, run: seq<Event>, n: nat)
    requires n < |run|
  {
    run[n].op.Claim? ==> FirstIsOldest(Run(EMPTY, maxAttempts, run, n), Created(run, n), run[n].now)
  }

  ghost predicate Untied(maxAttempts: int, run: seq<Event>, m: nat)
    requires m <= |run|
  {
    forall n :: 0 <= n < m ==> UntiedAt(maxAttempts, run, n)
  }

  /** Only an insertion touches creation times. */
  lemma TimesKept(t: Table, maxAttempts: int, e: Event, t': Table, output: Output)
    requires SqlStep(t, maxAttempts, e, t', output) && !e.op.Enqueue?
    ensures CreatedIn(t') == CreatedIn(t)
  {
  }

  lemma CreatedStep(t: Table, maxAttempts: int, run: seq<Event>, n: nat, t': Table, output: Output)
    requires n < |run| && SqlStep(t, maxAttempts, run[n], t', output) && CreatedIn(t) == Created(run, n)
    ensures CreatedIn(t') == Created(run, n + 1)
  {
    assert t.Keys == CreatedIn(t).Keys;
    if !run[n].op.Enqueue? {
      TimesKept(t, maxAttempts, run[n], t', output);
    }
  }

  /** The creation times in a table do not depend on which tasks were claimed. */
  lemma {:induction false} TimesAgree(tables: seq<Table>, maxAttempts: int, run: seq<Event>, outputs: seq<Output>,
                                      m: nat, n: nat)
    requires SqlRun(tables, maxAttempts, run, outputs, m) && n <= m
    ensures CreatedIn(tables[n]) == Created(run, n)
    decreases n
  {
    if n > 0 {
      TimesAgree(tables, maxAttempts, run, outputs, m, n - 1);
      CreatedStep(tables[n - 1], maxAttempts, run, n - 1, tables[n - 1 + 1], outputs[n - 1]);
    }
  }

  lemma RunTurn(tables: seq<Table>, maxAttempts: int, run: seq<Event>, outputs: seq<Output>, m: nat, n: nat)
    requires SqlRun(tables, maxAttempts, run, outputs, m) && n < m && UntiedAt(maxAttempts, run, n)
    requires Simulates(Run(EMPTY, maxAttempts, run, n), tables[n])
    ensures Simulates(Run(EMPTY, maxAttempts, run, n + 1), tables[n + 1])
    ensures outputs[n] == OutputOf(Run(EMPTY, maxAttempts, run, n), run[n])
  {
    TimesAgree(tables, maxAttempts, run, outputs, m, n);
    StepSimulated(Run(EMPTY, maxAttempts, run, n), tables[n], maxAttempts, run[n], tables[n + 1], outputs[n]);
  }

  lemma EmptySimulated()
    ensures Simulates(EMPTY, map[])
  {
  }

  lemma FirstSimulated(maxAttempts: int, run: seq<Event>)
    ensures Simulates(Run(EMPTY, maxAttempts, run, 0), map[])
  {
    EmptySimulated();
  }

  /** As long as no claim is tied, the in-memory store and the table agree after every statement. */
  lemma {:induction false} RunSimulated(tables: seq<Table>, maxAttempts: int, run: seq<Event>, outputs: seq<Output>,
                                        m: nat, n: nat)
    requires SqlRun(tables, maxAttempts, run, outputs, m) && n <= m && Untied(maxAttempts, run, n)
    ensures Simulates(Run(EMPTY, maxAttempts, run, n), tables[n])
    decreases n
  {
    if n > 0 {
      RunSimulated(tables, maxAttempts, run, outputs, m, n - 1);
      RunTurn(tables, maxAttempts, run, outputs, m, n - 1);
    } else {
      FirstSimulated(maxAttempts, run);
    }
  }

  /** Some statement outcome is always possible. */
  lemma StepExists(t: Table, maxAttempts: int, e: Event) returns (t': Table, output: Output)
    ensures SqlStep(t, maxAttempts, e, t', output)
  {
    match e.op
    case Enqueue(id, payload) =>
      t', output := if id in t then t else t[id := SqlRow(payload, Queued, 0, None, "", None, "", e.now)], Id(id);
    case Claim(runtime, ttl) =>
      if exists k :: k in t && SqlClaimable(t[k], e.now) {
        SomeSelected(t, e.now);
        var k :| Selected(t, e.now, k);
        t', output := t[k := SqlClaimed(t[k], e.now, runtime, ttl)], Task(Some(k));
      } else {
        t', output := t, Task(None);
      }
    case Heartbeat(id, ttl) =>
      t', output := SqlRenewed(t, e.now, id, ttl), Flag(id in t && t[id].status == Running);
    case Complete(id, result) =>
      t', output := if id in t then t[id := t[id].(status := Done, result := result)] else t, Nothing;
    case Fail(id, error, retryable) =>
      t', output := if id in t then t[id := SqlFailed(t[id], error, retryable, maxAttempts)] else t, Nothing;
    case ReclaimExpired =>
      t', output := map k | k in t :: SqlReclaimed(t[k], e.now), Count(|SqlExpiredKeys(t, e.now)|);
  }

  /** One more statement. */
  lemma RunOn(tables: seq<Table>, maxAttempts: int, run: seq<Event>, outputs: seq<Output>, m: nat, t: Table,
              output: Output)
    requires SqlRun(tables, maxAttempts, run, outputs, m) && m < |run|
    requires SqlStep(tables[m], maxAttempts, run[m], t, output)
    ensures SqlRun(tables + [t], maxAttempts, run, outputs + [output], m + 1)
  {
  }

  /** Every partial run can be continued. */
  lemma {:induction false} Continued(tables: seq<Table>, maxAttempts: int, run: seq<Event>, outputs: seq<Output>,
                                     m: nat, goal: nat)
    returns (tables': seq<Table>, outputs': seq<Output>)
    requires SqlRun(tables, maxAttempts, run, outputs, m) && m <= goal <= |run|
    ensures SqlRun(tables', maxAttempts, run, outputs', goal) && outputs <= outputs'
    decreases goal - m
  {
    if m == goal {
      tables', outputs' := tables, outputs;
    } else {
      var t, output := StepExists(tables[m], maxAttempts, run[m]);
      RunOn(tables, maxAttempts, run, outputs, m, t, output);
      tables', outputs' := Continued(tables + [t], maxAttempts, run, outputs + [output], m + 1, goal);
    }
  }

  lemma {:induction false} FirstTie(maxAttempts: int, run: seq<Event>, m: nat) returns (n: nat)
    requires m <= |run| && !Untied(maxAttempts, run, m)
    ensures n < m && Untied(maxAttempts, run, n) && !UntiedAt(maxAttempts, run, n)
    decreases m
  {
    if Untied(maxAttempts, run, m - 1) {
      n := m - 1;
    } else {
      n := FirstTie(maxAttempts, run, m - 1);
    }
  }

  /** At the first tied claim, a run of the table may answer otherwise. */
  lemma TieDiffers(maxAttempts: int, run: seq<Event>, n: nat) returns (tables: seq<Table>, outputs: seq<Output>)
    requires n < |run| && Untied(maxAttempts, run, n) && !UntiedAt(maxAttempts, run, n)
    ensures SqlRun(tables, maxAttempts, run, outputs, |run|)
    ensures outputs[n] != OutputOf(Run(EMPTY, maxAttempts, run, n), run[n])
  {
    tables, outputs := Continued([map[]], maxAttempts, run, [], 0, n);
    RunSimulated(tables, maxAttempts, run, outputs, n, n);
    TimesAgree(tables, maxAttempts, run, outputs, n, n);
    var e := run[n];
    var k := OtherSelected(Run(EMPTY, maxAttempts, run, n), tables[n], e.now);
    var t := tables[n][k := SqlClaimed(tables[n][k], e.now, e.op.runtime, e.op.ttl)];
    RunOn(tables, maxAttempts, run, outputs, n, t, Task(Some(k)));
    var sofar := outputs + [Task(Some(k))];
    tables, outputs := Continued(tables + [t], maxAttempts, run, sofar, n + 1, |run|);
    assert sofar[n] == Task(Some(k));
  }

  /** Every execution of the table gives the in-memory store's answer to every call. */
  ghost predicate SameAnswers(maxAttempts: int, run: seq<Event>) {
    forall tables, outputs, n: nat :: SqlRun(tables, maxAttempts, run, outputs, |run|) && n < |run| ==>
      outputs[n] == OutputOf(Run(EMPTY, maxAttempts, run, n), run[n])
  }

  /** The stores are interchangeable on a run if and only if none of its claims is tied. */
  lemma AnswersAgree(maxAttempts: int, run: seq<Event>)
    ensures SameAnswers(maxAttempts, run) <==> Untied(maxAttempts, run, |run|)
  {
    if Untied(maxAttempts, run, |run|) {
      forall tables, outputs, n: nat | SqlRun(tables, maxAttempts, run, outputs, |run|) && n < |run|
        ensures outputs[n] == OutputOf(Run(EMPTY, maxAttempts, run, n), run[n])
      {
        RunSimulated(tables, maxAttempts, run, outputs, |run|, n);
        RunTurn(tables, maxAttempts, run, outputs, |run|, n);
      }
    } else {
      var n := FirstTie(maxAttempts, run, |run|);
      var tables, outputs := TieDiffers(maxAttempts, run, n);
    }
  }

  /** Event `k` adds a task. */
  predicate Inserts(run: seq<Event>, k: nat)
    requires k < |run|
  {
    run[k].op.Enqueue? && run[k].op.id !in Created(run, k)
  }

  /** Each task that is added is added later than the ones before it. */
  ghost predicate InsertsInOrder(run: seq<Event>) {
    forall k, l :: 0 <= k < l < |run| && Inserts(run, k) && Inserts(run, l) ==> run[k].now < run[l].now
  }

  lemma {:induction false} TimesOfInserts(run: seq<Event>, n: nat, id: Key) returns (k: nat)
    requires n <= |run| && id in Created(run, n)
    ensures k < n && Inserts(run, k) && Created(run, n)[id] == run[k].now
    decreases n
  {
    if id in Created(run, n - 1) {
      k := TimesOfInserts(run, n - 1, id);
    } else {
      k := n - 1;
    }
  }

  /** The tasks are in the order of their creation times. */
  ghost predicate Aged(s: Store, created: map<Key, real>) {
    && s.rows.Keys == created.Keys
    && forall i, j :: 0 <= i < j < |s.order| ==> Older(created, s.order[i], s.order[j])
  }

  lemma AgedInsert(s: Store, created: map<Key, real>, id: Key, payload: Payload, now: real)
    requires Valid(s) && Aged(s, created) && id !in created
    requires forall k :: k in created ==> created[k] < now
    ensures Aged(EnqueueIn(s, id, payload), created[id := now])
  {
  }

  lemma AgedOther(s: Store, created: map<Key, real>, maxAttempts: int, e: Event)
    requires Valid(s) && Aged(s, created) && (e.op.Enqueue? ==> e.op.id in created)
    ensures Aged(Apply(s, maxAttempts, e), created)
  {
    var t := Apply(s, maxAttempts, e);
    assert t.order == s.order && t.rows.Keys == s.rows.Keys;
  }

  lemma {:induction false} AgedRun(maxAttempts: int, run: seq<Event>, n: nat)
    requires n <= |run| && InsertsInOrder(run)
    ensures AgedAt(maxAttempts, run, n)
    decreases n
  {
    if n > 0 {
      AgedRun(maxAttempts, run, n - 1);
      AgedNext(maxAttempts, run, n - 1);
    } else {
      AgedEmpty(maxAttempts, run);
    }
  }

  ghost predicate AgedAt(maxAttempts: int, run: seq<Event>, n: nat)
    requires n <= |run|
  {
    var s := Run(EMPTY, maxAttempts, run, n);
    Valid(s) && Aged(s, Created(run, n))
  }

  lemma AgedEmpty(maxAttempts: int, run: seq<Event>)
    ensures AgedAt(maxAttempts, run, 0)
  {
  }

  lemma AgedNext(maxAttempts: int, run: seq<Event>, n: nat)
    requires n < |run| && InsertsInOrder(run) && AgedAt(maxAttempts, run, n)
    ensures AgedAt(maxAttempts, run, n + 1)
  {
    AgedTurn(Run(EMPTY, maxAttempts, run, n), maxAttempts, run, n);
  }

  lemma AgedTurn(s: Store, maxAttempts: int, run: seq<Event>, n: nat)
    requires n < |run| && InsertsInOrder(run) && Valid(s) && Aged(s, Created(run, n))
    ensures Valid(Apply(s, maxAttempts, run[n])) && Aged(Apply(s, maxAttempts, run[n]), Created(run, n + 1))
  {
    var created, e := Created(run, n), run[n];
    ApplyGrows(s, maxAttempts, e);
    if Inserts(run, n) {
      forall id | id in created
        ensures created[id] < e.now
      {
        var k := TimesOfInserts(run, n, id);
      }
      AgedInsert(s, created, e.op.id, e.op.payload, e.now);
    } else {
      AgedOther(s, created, maxAttempts, e);
    }
  }

  /**
    In particular they are when no two tasks are added at the same instant and the
    clock does not run backwards between.
   */
  lemma InOrderUntied(maxAttempts: int, run: seq<Event>)
    requires InsertsInOrder(run)
    ensures Untied(maxAttempts, run, |run|) && SameAnswers(maxAttempts, run)
  {
    forall n | 0 <= n < |run|
      ensures UntiedAt(maxAttempts, run, n)
    {
      AgedRun(maxAttempts, run, n);
      assert AgedAt(maxAttempts, run, n);
    }
    AnswersAgree(maxAttempts, run);
  }

  /** What `get` and `dead_letters` read agrees too. */
  lemma ReadsAgree(s: Store, t: Table, id: Key)
    requires Simulates(s, t)
    ensures id in s.rows <==> id in t
    ensures id in t ==> SameRow(s.rows[id], t[id])
    ensures DeadKeys(s.rows) == set k | k in t && t[k].status == Dead
  {
    forall k | k in t
      ensures s.rows[k].status == t[k].status
    {
      assert SameRow(s.rows[k], t[k]);
    }
  }

  /** A tied run: two tasks added at the same instant, then a claim, which the table may answer with the second. */
  lemma TiesMayDiffer(maxAttempts: int, first: Key, second: Key, payload: Payload)
    requires first != second
    ensures var run := TiedRun(first, second, payload);
            !Untied(maxAttempts, run, 3) && !SameAnswers(maxAttempts, run)
  {
    var run := TiedRun(first, second, payload);
    assert Run(EMPTY, maxAttempts, run, 1) == Store([first], map[first := NewRow(payload)]);
    var s := Run(EMPTY, maxAttempts, run, 2);
    assert s.order == [first, second];
    assert Created(run, 1) == map[first := 0.0];
    assert FirstClaimable(s.order, s.rows, 1.0) == 0 && ClaimableAt(s.rows, s.order[1], 1.0);
    assert !Older(Created(run, 2), s.order[0], s.order[1]);
    assert !UntiedAt(maxAttempts, run, 2);
    AnswersAgree(maxAttempts, run);
  }

  function TiedRun(first: Key, second: Key, payload: Payload): (run: seq<Event>)
    ensures |run| == 3
  {
    [Event(0.0, Enqueue(first, payload)), Event(0.0, Enqueue(second, payload)), Event(1.0, Claim("w", 1.0))]
  }
}
