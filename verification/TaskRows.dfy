/**
  The task-store contract on values: the tasks of a store with their insertion
  order, and the effect of each operation, with the clock reading as an argument.
 */
module TaskRows {
  import opened Wrappers
  import opened Collections

  /** A task id. */
  datatype Key = Key(text: string)

  datatype Status = Queued | Running | Done | Dead

  type Payload = map<string, string>

  datatype Row = Row(
    payload: Payload,
    status: Status,
    attempts: nat,
    leaseUntil: real,
    runtimeId: string,
    result: Option<string>,
    error: string)

  function NewRow(payload: Payload): Row {
    Row(payload, Queued, 0, 0.0, "", None, "")
  }

  /** A Python dict: its rows by key, and its keys in insertion order. */
  datatype Store = Store(order: seq<Key>, rows: map<Key, Row>)

  predicate Valid(s: Store) {
    && Distinct(s.order)
    && (forall k :: k in s.order ==> k in s.rows)
    && (forall k :: k in s.rows ==> k in s.order)
  }

  const EMPTY: Store := Store([], map[])

  /** Queued, or running on a lease that has lapsed. */
  predicate Claimable(r: Row, now: real) {
    r.status == Queued || Expired(r, now)
  }

  predicate Expired(r: Row, now: real) {
    r.status == Running && r.leaseUntil <= now
  }

  predicate ClaimableAt(rows: map<Key, Row>, k: Key, now: real) {
    k in rows && Claimable(rows[k], now)
  }

  /** How many tasks come before the oldest claimable one; all of them if there is none. */
  function FirstClaimable(order: seq<Key>, rows: map<Key, Row>, now: real): (i: nat)
    ensures i <= |order|
    ensures i < |order| ==> ClaimableAt(rows, order[i], now)
    ensures forall j :: 0 <= j < i ==> !ClaimableAt(rows, order[j], now)
  {
    if order == [] || ClaimableAt(rows, order[0], now) then 0 else 1 + FirstClaimable(order[1..], rows, now)
  }

  function Claimed(r: Row, now: real, runtime: string, ttl: real): Row {
    r.(status := Running, runtimeId := runtime, leaseUntil := now + ttl)
  }

  function Renewed(r: Row, now: real, ttl: real): Row {
    r.(leaseUntil := now + ttl)
  }

  function Completed(r: Row, result: Option<string>): Row {
    r.(status := Done, result := result)
  }

  function Failed(r: Row, error: string, retryable: bool, maxAttempts: int): Row {
    var counted := r.(attempts := r.attempts + 1, error := error);
    if retryable && r.attempts + 1 < maxAttempts
    then counted.(status := Queued, runtimeId := "", leaseUntil := 0.0)
    else counted.(status := Dead)
  }

  function Reclaimed(r: Row, now: real): Row {
    if Expired(r, now) then r.(status := Queued, runtimeId := "") else r
  }

  function ReclaimAll(rows: map<Key, Row>, now: real): map<Key, Row> {
    map k | k in rows :: Reclaimed(rows[k], now)
  }

  /** The keys of the rows whose lease has lapsed. */
  function ExpiredKeys(rows: map<Key, Row>, now: real): set<Key> {
    set k | k in rows && Expired(rows[k], now)
  }

  function DeadKeys(rows: map<Key, Row>): set<Key> {
    set k | k in rows && rows[k].status == Dead
  }

  // ---------------------------------------------------------------------------
  // Operations and runs
  // ---------------------------------------------------------------------------

  datatype Op =
    | Enqueue(id: Key, payload: Payload)
    | Claim(runtime: string, ttl: real)
    | Heartbeat(id: Key, ttl: real)
    | Complete(id: Key, result: Option<string>)
    | Fail(id: Key, error: string, retryable: bool)
    | ReclaimExpired

  /** An operation and the clock reading at which it runs. */
  datatype Event = Event(now: real, op: Op)

  datatype Output = Id(id: Key) | Task(claimed: Option<Key>) | Flag(renewed: bool) | Nothing | Count(reclaimed: nat)

  function SetRow(s: Store, k: Key, r: Row): Store {
    s.(rows := s.rows[k := r])
  }

  /** The task that a claim would take. */
  function ClaimKey(s: Store, now: real): (k: Option<Key>)
    ensures k.Some? ==> ClaimableAt(s.rows, k.value, now)
  {
    var i := FirstClaimable(s.order, s.rows, now);
    if i < |s.order| then Some(s.order[i]) else None
  }

  function EnqueueIn(s: Store, id: Key, payload: Payload): Store {
    if id in s.rows then s else Store(s.order + [id], s.rows[id := NewRow(payload)])
  }

  function ClaimIn(s: Store, now: real, runtime: string, ttl: real): Store {
    match ClaimKey(s, now)
    case Some(k) => SetRow(s, k, Claimed(s.rows[k], now, runtime, ttl))
    case None => s
  }

  function HeartbeatIn(s: Store, now: real, id: Key, ttl: real): Store {
    if id in s.rows && s.rows[id].status == Running then SetRow(s, id, Renewed(s.rows[id], now, ttl)) else s
  }

  function CompleteIn(s: Store, id: Key, result: Option<string>): Store {
    if id in s.rows then SetRow(s, id, Completed(s.rows[id], result)) else s
  }

  function FailIn(s: Store, maxAttempts: int, id: Key, error: string, retryable: bool): Store {
    if id in s.rows then SetRow(s, id, Failed(s.rows[id], error, retryable, maxAttempts)) else s
  }

  function ReclaimIn(s: Store, now: real): Store {
    s.(rows := ReclaimAll(s.rows, now))
  }

  function Apply(s: Store, maxAttempts: int, e: Event): Store {
    match e.op
    case Enqueue(id, payload) => EnqueueIn(s, id, payload)
    case Claim(runtime, ttl) => ClaimIn(s, e.now, runtime, ttl)
    case Heartbeat(id, ttl) => HeartbeatIn(s, e.now, id, ttl)
    case Complete(id, result) => CompleteIn(s, id, result)
    case Fail(id, error, retryable) => FailIn(s, maxAttempts, id, error, retryable)
    case ReclaimExpired => ReclaimIn(s, e.now)
  }

  function OutputOf(s: Store, e: Event): Output {
    match e.op
    case Enqueue(id, _) => Id(id)
    case Claim(_, _) => Task(ClaimKey(s, e.now))
    case Heartbeat(id, _) => Flag(id in s.rows && s.rows[id].status == Running)
    case Complete(_, _) => Nothing
    case Fail(_, _, _) => Nothing
    case ReclaimExpired => Count(|ExpiredKeys(s.rows, e.now)|)
  }

  /** Tasks are never removed, renamed or reordered. */
  predicate Grows(s: Store, t: Store) {
    s.order <= t.order && s.rows.Keys <= t.rows.Keys
  }

  lemma EnqueueValid(s: Store, id: Key, payload: Payload)
    requires Valid(s)
    ensures Valid(EnqueueIn(s, id, payload))
  {
  }

  lemma ApplyGrows(s: Store, maxAttempts: int, e: Event)
    ensures Grows(s, Apply(s, maxAttempts, e))
    ensures Valid(s) ==> Valid(Apply(s, maxAttempts, e))
  {
    var t := Apply(s, maxAttempts, e);
    if !e.op.Enqueue? {
      assert t.rows.Keys == s.rows.Keys;
    }
  }

  /** The store after the first `n` events of a run. */
  function Run(s: Store, maxAttempts: int, run: seq<Event>, n: nat): Store
    requires n <= |run|
  {
    if n == 0 then s else Apply(Run(s, maxAttempts, run, n - 1), maxAttempts, run[n - 1])
  }

  lemma {:induction false} RunGrows(s: Store, maxAttempts: int, run: seq<Event>, m: nat, n: nat)
    requires m <= n <= |run|
    ensures Grows(Run(s, maxAttempts, run, m), Run(s, maxAttempts, run, n))
    ensures Valid(s) ==> Valid(Run(s, maxAttempts, run, m)) && Valid(Run(s, maxAttempts, run, n))
    decreases n
  {
    if m < n {
      RunGrows(s, maxAttempts, run, m, n - 1);
      ApplyGrows(Run(s, maxAttempts, run, n - 1), maxAttempts, run[n - 1]);
    } else if n > 0 {
      RunGrows(s, maxAttempts, run, n - 1, n - 1);
      ApplyGrows(Run(s, maxAttempts, run, n - 1), maxAttempts, run[n - 1]);
    }
  }
}
