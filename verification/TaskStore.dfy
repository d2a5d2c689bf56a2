/** `InMemoryTaskStore`: task objects in a dict, updated in place. */
module TaskStore {
  import opened Wrappers
  import opened Collections
  import opened TaskRows

  class StoredTask {
    const id: Key
    const payload: Payload
    var status: Status
    var attempts: nat
    var leaseUntil: real
    var runtimeId: string
    var result: Option<string>
    var error: string

    constructor (id: Key, payload: Payload)
      ensures this.id == id && AsRow() == NewRow(payload)
    {
      this.id, this.payload := id, payload;
      status, attempts, leaseUntil, runtimeId, result, error := Queued, 0, 0.0, "", None, "";
    }

    function AsRow(): Row
      reads this
    {
      Row(payload, status, attempts, leaseUntil, runtimeId, result, error)
    }
  }

  class InMemoryTaskStore {
    const maxAttempts: int
    var order: seq<Key>
    var tasks: map<Key, StoredTask>

    /** The dict maps each id to its own task object. */
    ghost predicate WellFormed()
      reads this, tasks.Values
    {
      && Valid(Contents())
      && (forall k :: k in tasks ==> tasks[k].id == k)
    }

    ghost function Contents(): Store
      reads this, tasks.Values
    {
      Store(order, map k | k in tasks :: tasks[k].AsRow())
    }

    constructor (maxAttempts: int := 3)
      ensures WellFormed() && Contents() == EMPTY && this.maxAttempts == maxAttempts
    {
      this.maxAttempts := maxAttempts;
      order, tasks := [], map[];
    }

    /** Writing one task object changes one row. */
    twostate lemma OneRowChanged(k: Key)
      requires old(WellFormed())
      requires order == old(order) && tasks == old(tasks) && k in tasks
      requires forall j :: j in tasks && tasks[j] != tasks[k] ==> unchanged(tasks[j])
      ensures WellFormed() && Contents() == SetRow(old(Contents()), k, tasks[k].AsRow())
    {
      assert Contents().rows.Keys == old(Contents()).rows.Keys;
      forall j | j in tasks && j != k
        ensures tasks[j].AsRow() == old(tasks[j].AsRow())
      {
        assert tasks[j].id == j && tasks[k].id == k;
      }
    }

    method Enqueue(id: Key, payload: Payload) returns (r: Key)
      requires WellFormed()
      modifies this
      ensures WellFormed() && r == id
      ensures Contents() == EnqueueIn(old(Contents()), id, payload)
      ensures forall k :: k in old(tasks) ==> k in tasks && tasks[k] == old(tasks[k])
    {
      if id !in tasks {
        var task := new StoredTask(id, payload);
        order, tasks := order + [id], tasks[id := task];
        assert Contents().rows == old(Contents()).rows[id := NewRow(payload)];
        EnqueueValid(old(Contents()), id, payload);
      }
      r := id;
    }

    /** The assignments that a successful claim makes. */
    method StartLease(k: Key, now: real, runtime: string, ttl: real)
      requires WellFormed() && k in tasks
      modifies tasks[k]
      ensures WellFormed()
      ensures Contents() == SetRow(old(Contents()), k, Claimed(old(Contents()).rows[k], now, runtime, ttl))
    {
      tasks[k].status := Running;
      tasks[k].runtimeId := runtime;
      tasks[k].leaseUntil := now + ttl;
      OneRowChanged(k);
    }

    method Claim(now: real, runtime: string, ttl: real) returns (claimed: StoredTask?)
      requires WellFormed()
      modifies tasks.Values
      ensures WellFormed() && order == old(order) && tasks == old(tasks)
      ensures Contents() == ClaimIn(old(Contents()), now, runtime, ttl)
      ensures match ClaimKey(old(Contents()), now)
              case Some(k) => k in tasks && claimed == tasks[k]
              case None => claimed == null
    {
      for i := 0 to |order|
        invariant Contents() == old(Contents())
        invariant forall j :: 0 <= j < i ==> !ClaimableAt(Contents().rows, order[j], now)
      {
        assert order[i] in Contents().rows;
        var task := tasks[order[i]];
        var reclaimable := task.status == Running && task.leaseUntil <= now;
        assert ClaimableAt(Contents().rows, order[i], now) <==> task.status == Queued || reclaimable;
        if task.status == Queued || reclaimable {
          FirstIs(order, Contents().rows, now, i);
          StartLease(order[i], now, runtime, ttl);
          return task;
        }
      }
      NoneIs(order, Contents().rows, now);
      return null;
    }

    method Heartbeat(now: real, id: Key, ttl: real) returns (renewed: bool)
      requires WellFormed()
      modifies tasks.Values
      ensures WellFormed() && order == old(order) && tasks == old(tasks)
      ensures Contents() == HeartbeatIn(old(Contents()), now, id, ttl)
      ensures renewed <==> id in tasks && old(tasks[id].status) == Running
    {
      if id in tasks && tasks[id].status == Running {
        tasks[id].leaseUntil := now + ttl;
        OneRowChanged(id);
        return true;
      }
      return false;
    }

    method Complete(id: Key, result: Option<string>)
      requires WellFormed()
      modifies tasks.Values
      ensures WellFormed() && order == old(order) && tasks == old(tasks)
      ensures Contents() == CompleteIn(old(Contents()), id, result)
    {
      if id in tasks {
        var task := tasks[id];
        task.status := Done;
        task.result := result;
        OneRowChanged(id);
      }
    }

    method Fail(id: Key, error: string, retryable: bool)
      requires WellFormed()
      modifies tasks.Values
      ensures WellFormed() && order == old(order) && tasks == old(tasks)
      ensures Contents() == FailIn(old(Contents()), maxAttempts, id, error, retryable)
    {
      if id !in tasks {
        return;
      }
      var task := tasks[id];
      task.attempts := task.attempts + 1;
      task.error := error;
      if retryable && task.attempts < maxAttempts {
        task.status := Queued;
        task.runtimeId := "";
        task.leaseUntil := 0.0;
      } else {
        task.status := Dead;
      }
      assert task.AsRow() == Failed(old(task.AsRow()), error, retryable, maxAttempts);
      OneRowChanged(id);
    }

    /** One turn of the reclaim loop. */
    method ReclaimOne(k: Key, now: real) returns (expired: bool)
      requires WellFormed() && k in tasks
      modifies tasks[k]
      ensures WellFormed() && Contents() == SetRow(old(Contents()), k, Reclaimed(old(Contents()).rows[k], now))
      ensures expired == Expired(old(Contents()).rows[k], now)
    {
      var task := tasks[k];
      expired := task.status == Running && task.leaseUntil <= now;
      if expired {
        task.status := Queued;
        task.runtimeId := "";
      }
      OneRowChanged(k);
    }

    method ReclaimExpired(now: real) returns (reclaimed: nat)
      requires WellFormed()
      modifies tasks.Values
      ensures WellFormed() && order == old(order) && tasks == old(tasks)
      ensures Contents() == ReclaimIn(old(Contents()), now)
      ensures reclaimed == |ExpiredKeys(old(Contents()).rows, now)|
    {
      ghost var was := Contents();
      NoneReclaimed(was, now);
      reclaimed := ReclaimLoop(was, now);
      AllReclaimed(was, Contents(), now, reclaimed);
    }

    /** The first `i` tasks have been looked at. */
    ghost predicate Reclaiming(was: Store, i: nat, now: real, reclaimed: nat)
      reads this, tasks.Values
    {
      WellFormed() && ReclaimedUpTo(was, Contents(), i, now, reclaimed)
    }

    method ReclaimLoop(ghost was: Store, now: real) returns (reclaimed: nat)
      requires Reclaiming(was, 0, now, 0)
      modifies tasks.Values
      ensures order == old(order) && tasks == old(tasks) && Reclaiming(was, |order|, now, reclaimed)
    {
      reclaimed := 0;
      for i := 0 to |order|
        invariant Reclaiming(was, i, now, reclaimed)
      {
        Listed(i);
        reclaimed := ReclaimNext(was, i, now, reclaimed);
      }
    }

    lemma Listed(i: nat)
      requires WellFormed() && i < |order|
      ensures order[i] in tasks
    {
      assert order[i] in Contents().rows;
    }

    method ReclaimNext(ghost was: Store, i: nat, now: real, reclaimed: nat) returns (more: nat)
      requires i < |order| && order[i] in tasks && Reclaiming(was, i, now, reclaimed)
      modifies tasks[order[i]]
      ensures Reclaiming(was, i + 1, now, more)
    {
      ReclaimTurn(was, Contents(), i, now, reclaimed);
      var expired := ReclaimOne(order[i], now);
      more := if expired then reclaimed + 1 else reclaimed;
    }
  }

  /** The store once the first `i` tasks have been looked at, and how many of those were reclaimed. */
  ghost predicate ReclaimedUpTo(before: Store, s: Store, i: nat, now: real, reclaimed: nat) {
    && Valid(before)
    && i <= |before.order|
    && s.order == before.order
    && s.rows == ReclaimSome(before.rows, Before(before.order, i), now)
    && reclaimed == |Before(before.order, i) * ExpiredKeys(before.rows, now)|
  }

  lemma NoneReclaimed(s: Store, now: real)
    requires Valid(s)
    ensures ReclaimedUpTo(s, s, 0, now, 0)
  {
  }

  lemma ReclaimTurn(before: Store, s: Store, i: nat, now: real, reclaimed: nat)
    requires ReclaimedUpTo(before, s, i, now, reclaimed) && i < |s.order|
    ensures s.order[i] in s.rows && s.rows[s.order[i]] == before.rows[s.order[i]]
    ensures var r := s.rows[s.order[i]];
            ReclaimedUpTo(before, SetRow(s, s.order[i], Reclaimed(r, now)), i + 1, now,
                          if Expired(r, now) then reclaimed + 1 else reclaimed)
  {
    HandleOne(before.rows, before.order, i, now);
  }

  lemma AllReclaimed(before: Store, s: Store, now: real, reclaimed: nat)
    requires ReclaimedUpTo(before, s, |before.order|, now, reclaimed)
    ensures s == ReclaimIn(before, now) && reclaimed == |ExpiredKeys(before.rows, now)|
  {
    AllListed(before);
    HandledAll(before.rows, Before(before.order, |before.order|), now);
  }

  lemma AllListed(s: Store)
    requires Valid(s)
    ensures s.rows.Keys <= Before(s.order, |s.order|)
  {
    assert s.order[..|s.order|] == s.order;
  }

  lemma HandledAll(rows: map<Key, Row>, handled: set<Key>, now: real)
    requires rows.Keys <= handled
    ensures ReclaimSome(rows, handled, now) == ReclaimAll(rows, now)
    ensures handled * ExpiredKeys(rows, now) == ExpiredKeys(rows, now)
  {
  }

  /** The keys in front of position `i`. */
  ghost function Before(order: seq<Key>, i: nat): set<Key>
    requires i <= |order|
  {
    set k | k in order[..i]
  }

  /** The rows once `handled` have been looked at. */
  ghost function ReclaimSome(rows: map<Key, Row>, handled: set<Key>, now: real): map<Key, Row> {
    map k | k in rows :: if k in handled then Reclaimed(rows[k], now) else rows[k]
  }

  lemma BeforeNext(order: seq<Key>, i: nat)
    requires i < |order| && Distinct(order)
    ensures Before(order, i + 1) == Before(order, i) + {order[i]} && order[i] !in Before(order, i)
  {
    assert order[..i + 1] == order[..i] + [order[i]];
  }

  lemma HandleOne(rows: map<Key, Row>, order: seq<Key>, i: nat, now: real)
    requires i < |order| && Distinct(order) && order[i] in rows
    ensures ReclaimSome(rows, Before(order, i), now)[order[i]] == rows[order[i]]
    ensures ReclaimSome(rows, Before(order, i + 1), now)
         == ReclaimSome(rows, Before(order, i), now)[order[i] := Reclaimed(rows[order[i]], now)]
    ensures |Before(order, i + 1) * ExpiredKeys(rows, now)|
         == |Before(order, i) * ExpiredKeys(rows, now)| + if Expired(rows[order[i]], now) then 1 else 0
  {
    BeforeNext(order, i);
    CountNext(rows, Before(order, i), order[i], now);
    RowsNext(rows, Before(order, i), order[i], now);
  }

  lemma RowsNext(rows: map<Key, Row>, handled: set<Key>, key: Key, now: real)
    requires key in rows && key !in handled
    ensures ReclaimSome(rows, handled, now)[key] == rows[key]
    ensures ReclaimSome(rows, handled + {key}, now) == ReclaimSome(rows, handled, now)[key := Reclaimed(rows[key], now)]
  {
  }

  lemma CountNext(rows: map<Key, Row>, handled: set<Key>, key: Key, now: real)
    requires key in rows && key !in handled
    ensures |(handled + {key}) * ExpiredKeys(rows, now)|
         == |handled * ExpiredKeys(rows, now)| + if Expired(rows[key], now) then 1 else 0
  {
    var expired := ExpiredKeys(rows, now);
    if Expired(rows[key], now) {
      assert (handled + {key}) * expired == handled * expired + {key};
    } else {
      assert (handled + {key}) * expired == handled * expired;
    }
  }

  lemma {:induction false} FirstIs(order: seq<Key>, rows: map<Key, Row>, now: real, i: nat)
    requires i < |order| && ClaimableAt(rows, order[i], now)
    requires forall j :: 0 <= j < i ==> !ClaimableAt(rows, order[j], now)
    ensures FirstClaimable(order, rows, now) == i
  {
  }

  lemma NoneIs(order: seq<Key>, rows: map<Key, Row>, now: real)
    requires forall j :: 0 <= j < |order| ==> !ClaimableAt(rows, order[j], now)
    ensures FirstClaimable(order, rows, now) == |order|
  {
  }
}
