/**
  The wave leveller (`_topological_sort`): memoised recursive levelling that
  tolerates cycles, then grouping of the tasks by level.
 */
module WaveLevels {
  import opened Wrappers
  import opened Collections
  import opened Graphs
  import Decimal

  /** The fields of a task record that scheduling reads; an absent or empty `task` key is "". */
  datatype WaveTask = WaveTask(task: string, branch: Option<string>, stepId: string)

  /** The id under which the leveller files the task at position `i`. */
  function Key(t: WaveTask, i: nat): Id {
    if t.task != "" then t.task
    else match t.branch
      case Some(b) => b
      case None => "t" + Decimal.Print(i)
  }

  /** A dependency that does not lie on a cycle is in a strictly lower level. */
  ghost predicate Respects(g: Graph, ids: set<Id>, level: map<Id, nat>) {
    forall t, p :: t in level && Edge(g, ids, t, p) ==> Below(g, ids, level, t, level[t], p)
  }

  ghost predicate Below(g: Graph, ids: set<Id>, level: map<Id, nat>, t: Id, d: nat, p: Id) {
    Reaches(g, ids, p, t) || (p in level && level[p] < d)
  }

  /** A positive level is explained by a dependency. */
  ghost predicate Justified(g: Graph, ids: set<Id>, level: map<Id, nat>) {
    forall t :: t in level && level[t] > 0 ==> exists p :: Justifies(g, ids, level, t, level[t], p)
  }

  /** `p` puts `t` at level `d`: it is one level below, or it closes a cycle and counts as level 0. */
  ghost predicate Justifies(g: Graph, ids: set<Id>, level: map<Id, nat>, t: Id, d: nat, p: Id) {
    && Edge(g, ids, t, p)
    && ((p in level && d == level[p] + 1) || (d == 1 && Reaches(g, ids, p, t)))
  }

  /** No level exceeds the number of levelled ids. */
  ghost predicate Bounded(level: map<Id, nat>) {
    forall t :: t in level ==> level[t] <= |level|
  }

  /** What levelling guarantees on every graph, cyclic or not. */
  ghost predicate Levelled(g: Graph, ids: set<Id>, level: map<Id, nat>) {
    && level.Keys <= ids
    && Respects(g, ids, level)
    && Justified(g, ids, level)
    && Bounded(level)
  }

  /** Every id on the recursion stack reaches the id being levelled. */
  ghost predicate AllReach(g: Graph, ids: set<Id>, visiting: set<Id>, tid: Id) {
    forall v :: v in visiting ==> Reaches(g, ids, v, tid)
  }

  /** Nothing in `before` is lost or changed in `after`. */
  ghost predicate Extends(before: map<Id, nat>, after: map<Id, nat>) {
    forall t :: t in before ==> t in after && after[t] == before[t]
  }

  /** What the scan of the first dependencies of `t` has established when its running maximum is `d`. */
  ghost predicate Scanned(g: Graph, ids: set<Id>, level: map<Id, nat>, t: Id, ps: seq<Id>, d: nat) {
    && (forall p :: p in ps && p in ids ==> Below(g, ids, level, t, d, p))
    && (d > 0 ==> exists p :: Justifies(g, ids, level, t, d, p))
    && d <= |level| + 1
  }

  lemma NothingScanned(g: Graph, ids: set<Id>, level: map<Id, nat>, t: Id, ps: seq<Id>)
    requires ps == []
    ensures Scanned(g, ids, level, t, ps, 0)
  {
  }

  class Leveller {
    const dag: Graph
    const ids: set<Id>
    var level: map<Id, nat>

    constructor (dag: Graph, ids: set<Id>)
      ensures this.dag == dag && this.ids == ids && level == map[]
    {
      this.dag, this.ids, level := dag, ids, map[];
    }

    ghost predicate Stacked(visiting: set<Id>, tid: Id)
      reads this
    {
      tid in ids && visiting <= ids && visiting !! level.Keys && AllReach(dag, ids, visiting, tid)
    }

    method Depth(tid: Id, visiting: set<Id>) returns (d: nat)
      requires Levelled(dag, ids, level) && Stacked(visiting, tid)
      modifies this`level
      ensures Levelled(dag, ids, level) && Stacked(visiting, tid)
      ensures Extends(old(level), level)
      ensures if tid in visiting then d == 0 else tid in level && d == level[tid]
      decreases |ids - visiting|, 0
    {
      if tid in level {
        return level[tid];
      }
      if tid in visiting {
        return 0;
      }
      SmallerSet(ids - (visiting + {tid}), ids - visiting);
      d := MaxBelow(tid, visiting, Deps(dag, tid));
      Settle(dag, ids, level, tid, d);
      level := level[tid := d];
    }

    /** The maximum over the in-plan dependencies of one more than their depth; 0 if there are none. */
    method MaxBelow(tid: Id, visiting: set<Id>, parents: seq<Id>) returns (d: nat)
      requires Levelled(dag, ids, level) && Stacked(visiting, tid) && tid !in visiting && tid !in level
      requires parents == Deps(dag, tid)
      modifies this`level
      ensures Levelled(dag, ids, level) && Stacked(visiting, tid) && tid !in level
      ensures Extends(old(level), level)
      ensures Scanned(dag, ids, level, tid, parents, d)
      decreases |ids - (visiting + {tid})|, 2
    {
      d := 0;
      var i := 0;
      NothingScanned(dag, ids, level, tid, parents[..i]);
      while i < |parents|
        invariant 0 <= i <= |parents|
        invariant Levelled(dag, ids, level) && Stacked(visiting, tid) && tid !in level
        invariant Extends(old(level), level)
        invariant Scanned(dag, ids, level, tid, parents[..i], d)
      {
        d := Fold(tid, visiting, parents[..i], parents[i], d);
        assert parents[..i + 1] == parents[..i] + [parents[i]];
        i := i + 1;
      }
      assert parents[..i] == parents;
    }

    /** One step of that maximum. */
    method Fold(tid: Id, visiting: set<Id>, ghost ps: seq<Id>, p: Id, d: nat) returns (e: nat)
      requires Levelled(dag, ids, level) && Stacked(visiting, tid) && tid !in visiting && tid !in level
      requires p in Deps(dag, tid)
      requires Scanned(dag, ids, level, tid, ps, d)
      modifies this`level
      ensures Levelled(dag, ids, level) && Stacked(visiting, tid) && tid !in level
      ensures Extends(old(level), level)
      ensures Scanned(dag, ids, level, tid, ps + [p], e)
      decreases |ids - (visiting + {tid})|, 1
    {
      if p !in ids {
        return d;
      }
      StackReaches(dag, ids, visiting, tid, p);
      var below := Depth(p, visiting + {tid});
      ScanOne(dag, ids, old(level), level, tid, ps, d, p, below);
      e := if below + 1 > d then below + 1 else d;
    }
  }

  lemma SmallerSet<T>(a: set<T>, b: set<T>)
    requires a < b
    ensures |a| < |b|
  {
    var x :| x in b && x !in a;
    assert b == a + (b - a);
  }

  lemma GrowthKeepsSize(before: map<Id, nat>, after: map<Id, nat>)
    requires Extends(before, after)
    ensures |before| <= |after|
  {
    assert before.Keys <= after.Keys;
    if before.Keys != after.Keys {
      SmallerSet(before.Keys, after.Keys);
    }
    assert |before| == |before.Keys|;
    assert |after| == |after.Keys|;
  }

  /** The stack stays a stack when a dependency is visited, and a dependency already on it closes a cycle. */
  lemma StackReaches(g: Graph, ids: set<Id>, visiting: set<Id>, tid: Id, p: Id)
    requires Edge(g, ids, tid, p) && AllReach(g, ids, visiting, tid)
    ensures AllReach(g, ids, visiting + {tid}, p)
    ensures p in visiting + {tid} ==> Reaches(g, ids, p, tid)
  {
    EdgeReaches(g, ids, tid, p);
    forall v | v in visiting
      ensures Reaches(g, ids, v, p)
    {
      ReachesTransitive(g, ids, v, tid, p);
    }
  }

  /** One more dependency has been visited, after which the table has grown from `before` to `level`. */
  lemma ScanOne(g: Graph, ids: set<Id>, before: map<Id, nat>, level: map<Id, nat>, t: Id, ps: seq<Id>, d: nat, p: Id,
                below: nat)
    requires Extends(before, level) && Bounded(level)
    requires Scanned(g, ids, before, t, ps, d)
    requires Edge(g, ids, t, p)
    requires (p in level && below == level[p]) || (below == 0 && Reaches(g, ids, p, t))
    ensures Scanned(g, ids, level, t, ps + [p], if below + 1 > d then below + 1 else d)
  {
    GrowthKeepsSize(before, level);
    var e := if below + 1 > d then below + 1 else d;
    forall q | q in ps + [p] && q in ids
      ensures Below(g, ids, level, t, e, q)
    {
      if q in ps {
        assert Below(g, ids, before, t, d, q);
      }
    }
    if below + 1 > d {
      assert Justifies(g, ids, level, t, e, p);
    } else {
      var q :| Justifies(g, ids, before, t, d, q);
      assert Justifies(g, ids, level, t, e, q);
    }
  }

  /** Recording the level of an id whose dependencies have all been visited keeps the guarantees. */
  lemma Settle(g: Graph, ids: set<Id>, level: map<Id, nat>, t: Id, d: nat)
    requires Levelled(g, ids, level) && t in ids && t !in level
    requires Scanned(g, ids, level, t, Deps(g, t), d)
    ensures Levelled(g, ids, level[t := d])
  {
    var next := level[t := d];
    assert next.Keys == level.Keys + {t};
    assert |next| == |level| + 1;
    SettleRespects(g, ids, level, t, d);
    SettleJustified(g, ids, level, t, d);
  }

  lemma SettleRespects(g: Graph, ids: set<Id>, level: map<Id, nat>, t: Id, d: nat)
    requires Respects(g, ids, level) && t !in level
    requires Scanned(g, ids, level, t, Deps(g, t), d)
    ensures Respects(g, ids, level[t := d])
  {
    var next := level[t := d];
    forall u, p | u in next && Edge(g, ids, u, p)
      ensures Below(g, ids, next, u, next[u], p)
    {
      assert Below(g, ids, level, u, next[u], p);
      if !Reaches(g, ids, p, u) {
        assert p in level && next[p] == level[p];
      }
    }
  }

  lemma SettleJustified(g: Graph, ids: set<Id>, level: map<Id, nat>, t: Id, d: nat)
    requires Justified(g, ids, level) && t !in level
    requires Scanned(g, ids, level, t, Deps(g, t), d)
    ensures Justified(g, ids, level[t := d])
  {
    var next := level[t := d];
    forall u | u in next && next[u] > 0
      ensures exists p :: Justifies(g, ids, next, u, next[u], p)
    {
      var p :| Justifies(g, ids, level, u, next[u], p);
      assert Justifies(g, ids, next, u, next[u], p);
    }
  }

  // ---------------------------------------------------------------------------
  // Acyclic graphs: levels are longest-chain depths
  // ---------------------------------------------------------------------------

  /** Along an acyclic graph's dependencies levels fall, and each positive level is one above a dependency's. */
  lemma AcyclicLevels(g: Graph, ids: set<Id>, level: map<Id, nat>)
    requires Acyclic(g, ids) && Levelled(g, ids, level) && level.Keys == ids
    ensures forall t, p :: Edge(g, ids, t, p) ==> level[p] < level[t]
    ensures forall t :: t in ids && level[t] > 0 ==> exists p :: Edge(g, ids, t, p) && level[t] == level[p] + 1
  {
    forall t, p | Edge(g, ids, t, p)
      ensures !Reaches(g, ids, p, t)
    {
      if Reaches(g, ids, p, t) {
        EdgeReaches(g, ids, t, p);
        ReachesTransitive(g, ids, t, p, t);
        assert false;
      }
    }
    forall t, p | Edge(g, ids, t, p)
      ensures level[p] < level[t]
    {
      assert Below(g, ids, level, t, level[t], p);
    }
    forall t | t in ids && level[t] > 0
      ensures exists p :: Edge(g, ids, t, p) && level[t] == level[p] + 1
    {
      var p :| Justifies(g, ids, level, t, level[t], p);
      assert Edge(g, ids, t, p) && level[t] == level[p] + 1;
    }
  }

  /** A task at level `d` starts a chain of `d` dependencies. */
  lemma {:induction false} LevelHasChain(g: Graph, ids: set<Id>, level: map<Id, nat>, t: Id) returns (c: seq<Id>)
    requires level.Keys == ids && t in ids
    requires forall u :: u in ids && level[u] > 0 ==> exists p :: Edge(g, ids, u, p) && level[u] == level[p] + 1
    ensures Chain(g, ids, c) && c[0] == t && |c| == level[t] + 1
    decreases level[t]
  {
    if level[t] == 0 {
      c := [t];
    } else {
      var p :| Edge(g, ids, t, p) && level[t] == level[p] + 1;
      var rest := LevelHasChain(g, ids, level, p);
      c := [t] + rest;
      forall i | 0 <= i < |c| - 1
        ensures Edge(g, ids, c[i], c[i + 1])
      {
        if i > 0 {
          assert Edge(g, ids, rest[i - 1], rest[i - 1 + 1]);
        }
      }
    }
  }

  /** On an acyclic graph the level of every task is the length of its longest chain of in-plan dependencies. */
  lemma AcyclicLevelsAreDepths(g: Graph, ids: set<Id>, level: map<Id, nat>)
    requires Acyclic(g, ids) && Levelled(g, ids, level) && level.Keys == ids
    ensures forall t :: t in ids ==> IsDepth(g, ids, t, level[t])
  {
    AcyclicLevels(g, ids, level);
    forall t | t in ids
      ensures IsDepth(g, ids, t, level[t])
    {
      var c := LevelHasChain(g, ids, level, t);
      forall p | Chain(g, ids, p) && p[0] == t
        ensures |p| <= level[t] + 1
      {
        RankBoundsChain(g, ids, level, p);
      }
    }
  }

  /** Hence the order in which tasks are listed, which decides what is memoised when, does not change any level. */
  lemma LevelsIgnoreTaskOrder(g: Graph, ids: set<Id>, level: map<Id, nat>, other: map<Id, nat>)
    requires Acyclic(g, ids)
    requires Levelled(g, ids, level) && level.Keys == ids
    requires Levelled(g, ids, other) && other.Keys == ids
    ensures level == other
  {
    AcyclicLevelsAreDepths(g, ids, level);
    AcyclicLevelsAreDepths(g, ids, other);
    forall t | t in ids
      ensures level[t] == other[t]
    {
      DepthUnique(g, ids, t, level[t], other[t]);
    }
  }

  /** On an acyclic graph every level below an occupied one is occupied. */
  lemma {:induction false} NoGaps(g: Graph, ids: set<Id>, level: map<Id, nat>, t: Id, l: nat) returns (u: Id)
    requires Acyclic(g, ids) && Levelled(g, ids, level) && level.Keys == ids
    requires t in ids && l <= level[t]
    ensures u in ids && level[u] == l
    decreases level[t]
  {
    if level[t] == l {
      u := t;
    } else {
      AcyclicLevels(g, ids, level);
      var p :| Edge(g, ids, t, p) && level[t] == level[p] + 1;
      u := NoGaps(g, ids, level, p, l);
    }
  }

  // ---------------------------------------------------------------------------
  // From levels to waves
  // ---------------------------------------------------------------------------

  /** The distinct keys of the first `n` tasks, in order of first occurrence: the order of a Python dict. */
  function KeyOrder(tasks: seq<WaveTask>, n: nat): seq<Id>
    requires n <= |tasks|
  {
    if n == 0 then []
    else
      var k := Key(tasks[n - 1], n - 1);
      var ks := KeyOrder(tasks, n - 1);
      if k in ks then ks else ks + [k]
  }

  /** The dict itself: the last task filed under a key wins. */
  function Table(tasks: seq<WaveTask>, n: nat): (m: map<Id, WaveTask>)
    requires n <= |tasks|
    ensures m.Keys == set k | k in KeyOrder(tasks, n)
    ensures forall k :: k in m ==> exists i :: 0 <= i < n && k == Key(tasks[i], i) && m[k] == tasks[i]
  {
    if n == 0 then map[]
    else Table(tasks, n - 1)[Key(tasks[n - 1], n - 1) := tasks[n - 1]]
  }

  lemma {:induction false} KeyOrderDistinct(tasks: seq<WaveTask>, n: nat)
    requires n <= |tasks|
    ensures Distinct(KeyOrder(tasks, n))
    ensures forall i :: 0 <= i < n ==> Key(tasks[i], i) in KeyOrder(tasks, n)
  {
    if n > 0 {
      KeyOrderDistinct(tasks, n - 1);
    }
  }

  /** Key `k` is first used by the task at position `i`. */
  predicate FirstUse(tasks: seq<WaveTask>, k: Id, i: nat) {
    && i < |tasks| && Key(tasks[i], i) == k
    && forall j :: 0 <= j < i ==> Key(tasks[j], j) != k
  }

  /** The keys come in order of their first use. */
  lemma {:induction false} KeysInFirstUse(tasks: seq<WaveTask>, n: nat, a: nat) returns (i: nat)
    requires n <= |tasks| && a < |KeyOrder(tasks, n)|
    ensures i < n && FirstUse(tasks, KeyOrder(tasks, n)[a], i)
    ensures forall b, j: nat :: a < b < |KeyOrder(tasks, n)| && FirstUse(tasks, KeyOrder(tasks, n)[b], j) ==> i < j
    decreases n
  {
    var ks, k := KeyOrder(tasks, n - 1), Key(tasks[n - 1], n - 1);
    KeyOrderDistinct(tasks, n - 1);
    if a < |ks| {
      i := KeysInFirstUse(tasks, n - 1, a);
      assert forall j :: 0 <= j < n - 1 ==> Key(tasks[j], j) in ks;
    } else {
      i := n - 1;
      forall j | 0 <= j < i
        ensures Key(tasks[j], j) != k
      {
        assert Key(tasks[j], j) in ks;
      }
    }
  }

  /** The table holds for each key the last task that uses it. */
  lemma {:induction false} LastTaskWins(tasks: seq<WaveTask>, n: nat, i: nat)
    requires i < n <= |tasks| && forall j :: i < j < n ==> Key(tasks[j], j) != Key(tasks[i], i)
    ensures Lookup(Table(tasks, n), Key(tasks[i], i)) == Some(tasks[i])
    decreases n
  {
    if i < n - 1 {
      LastTaskWins(tasks, n - 1, i);
    }
  }

  /** The tasks of level `l`, in dict order. */
  function Bucket(ks: seq<Id>, table: map<Id, WaveTask>, level: map<Id, nat>, l: nat): seq<WaveTask>
    requires forall k :: k in ks ==> k in table && k in level
  {
    if ks == [] then []
    else
      var k := ks[|ks| - 1];
      var rest := Bucket(ks[..|ks| - 1], table, level, l);
      if level[k] == l then rest + [table[k]] else rest
  }

  /** `[w for w in waves if w]` */
  function Compact<T>(ws: seq<seq<T>>): seq<seq<T>> {
    if ws == [] then []
    else if ws[0] == [] then Compact(ws[1..])
    else [ws[0]] + Compact(ws[1..])
  }

  function MaxLevel(level: map<Id, nat>, ks: seq<Id>): (m: nat)
    requires forall k :: k in ks ==> k in level
    ensures forall k :: k in ks ==> level[k] <= m
    ensures m > 0 ==> exists k :: k in ks && level[k] == m
  {
    if ks == [] then 0
    else
      var m := MaxLevel(level, ks[..|ks| - 1]);
      var k := ks[|ks| - 1];
      if level[k] > m then level[k] else m
  }

  /** The first `n` levels, including any that are empty. */
  function BucketsUpTo(ks: seq<Id>, table: map<Id, WaveTask>, level: map<Id, nat>, n: nat): (ws: seq<seq<WaveTask>>)
    requires forall k :: k in ks ==> k in table && k in level
  {
    seq(n, l requires 0 <= l => Bucket(ks, table, level, l))
  }

  /** All the levels, including any that are empty. */
  function Buckets(ks: seq<Id>, table: map<Id, WaveTask>, level: map<Id, nat>): (ws: seq<seq<WaveTask>>)
    requires forall k :: k in ks ==> k in table && k in level
  {
    BucketsUpTo(ks, table, level, MaxLevel(level, ks) + 1)
  }

  method Index(tasks: seq<WaveTask>) returns (keys: seq<Id>, table: map<Id, WaveTask>)
    ensures keys == KeyOrder(tasks, |tasks|) && table == Table(tasks, |tasks|)
  {
    keys, table := [], map[];
    for i := 0 to |tasks|
      invariant keys == KeyOrder(tasks, i) && table == Table(tasks, i)
    {
      var k := Key(tasks[i], i);
      if k !in table {
        keys := keys + [k];
      }
      table := table[k := tasks[i]];
    }
  }

  method LevelAll(keys: seq<Id>, dag: Graph) returns (level: map<Id, nat>)
    ensures level.Keys == (set k | k in keys)
    ensures Levelled(dag, level.Keys, level)
  {
    var ids := set k | k in keys;
    var leveller := new Leveller(dag, ids);
    level := leveller.level;
    NothingLevelled(dag, ids);
    for i := 0 to |keys|
      invariant leveller.dag == dag && leveller.ids == ids && leveller.level == level
      invariant Levelled(dag, ids, level)
      invariant LevelledTo(keys, i, level)
    {
      var _ := leveller.Depth(keys[i], {});
      StillLevelled(keys, i, level, leveller.level);
      level := leveller.level;
    }
    AllLevelled(dag, keys, level);
  }

  lemma NothingLevelled(g: Graph, ids: set<Id>)
    ensures Levelled(g, ids, map[]) && AllReach(g, ids, {}, "")
  {
  }

  lemma AllLevelled(g: Graph, keys: seq<Id>, level: map<Id, nat>)
    requires Levelled(g, (set k | k in keys), level)
    requires LevelledTo(keys, |keys|, level)
    ensures level.Keys == set k | k in keys
  {
  }

  ghost predicate LevelledTo(keys: seq<Id>, n: nat, level: map<Id, nat>) {
    n <= |keys| && forall j :: 0 <= j < n ==> keys[j] in level
  }

  lemma StillLevelled(keys: seq<Id>, n: nat, before: map<Id, nat>, after: map<Id, nat>)
    requires LevelledTo(keys, n, before) && Extends(before, after)
    requires n < |keys| && keys[n] in after
    ensures LevelledTo(keys, n + 1, after)
  {
    forall j | 0 <= j < n
      ensures keys[j] in after
    {
      assert keys[j] in before;
    }
  }

  method Group(keys: seq<Id>, table: map<Id, WaveTask>, level: map<Id, nat>) returns (waves: seq<seq<WaveTask>>)
    requires forall k :: k in keys ==> k in table && k in level
    ensures waves == Compact(Buckets(keys, table, level))
  {
    var deepest := MaxLevel(level, keys);
    waves := seq(deepest + 1, _ => []);
    for i := 0 to |keys|
      invariant |waves| == deepest + 1
      invariant forall l :: 0 <= l <= deepest ==> waves[l] == Bucket(keys[..i], table, level, l)
    {
      var l := level[keys[i]];
      assert keys[..i + 1][..i] == keys[..i];
      waves := waves[l := waves[l] + [table[keys[i]]]];
    }
    assert keys[..|keys|] == keys;
    assert waves == Buckets(keys, table, level);
    waves := Compact(waves);
  }

  /** `waves` are the tasks grouped by a levelling of all their keys. */
  ghost predicate GroupedBy(tasks: seq<WaveTask>, dag: Graph, level: map<Id, nat>, waves: seq<seq<WaveTask>>) {
    var ks := KeyOrder(tasks, |tasks|);
    && level.Keys == (set k | k in ks)
    && Levelled(dag, level.Keys, level)
    && waves == Compact(Buckets(ks, Table(tasks, |tasks|), level))
  }

  method TopologicalSort(tasks: seq<WaveTask>, dag: Graph) returns (waves: seq<seq<WaveTask>>)
    ensures exists level :: GroupedBy(tasks, dag, level, waves)
  {
    var keys, table := Index(tasks);
    var level := LevelAll(keys, dag);
    waves := Group(keys, table, level);
    assert GroupedBy(tasks, dag, level, waves);
  }

  // ---------------------------------------------------------------------------
  // What the waves contain
  // ---------------------------------------------------------------------------

  function Flatten<T>(ws: seq<seq<T>>): seq<T> {
    if ws == [] then [] else ws[0] + Flatten(ws[1..])
  }

  lemma {:induction false} CompactKeepsContents<T>(ws: seq<seq<T>>)
    ensures Flatten(Compact(ws)) == Flatten(ws)
    ensures forall w :: w in Compact(ws) ==> w != []
  {
    if ws != [] {
      CompactKeepsContents(ws[1..]);
      if ws[0] != [] {
        assert Compact(ws)[1..] == Compact(ws[1..]);
      }
    }
  }

  /** The tasks filed under a list of keys, in that order. */
  function TasksOf(ks: seq<Id>, table: map<Id, WaveTask>): seq<WaveTask>
    requires forall k :: k in ks ==> k in table
  {
    if ks == [] then [] else TasksOf(ks[..|ks| - 1], table) + [table[ks[|ks| - 1]]]
  }

  /** Adding one element to one wave adds it once to the flattened waves. */
  lemma FlattenFirst<T>(w: seq<T>, rest: seq<seq<T>>)
    ensures multiset(Flatten([w] + rest)) == multiset(w) + multiset(Flatten(rest))
  {
    assert ([w] + rest)[1..] == rest;
  }

  lemma AddToRest<T>(ws: seq<seq<T>>, l: nat, w: seq<T>)
    requires 0 < l < |ws|
    ensures ws[l := w] == [ws[0]] + ws[1..][l - 1 := w]
  {
  }

  lemma {:induction false} FlattenUpdate<T>(ws: seq<seq<T>>, l: nat, x: T)
    requires l < |ws|
    ensures multiset(Flatten(ws[l := ws[l] + [x]])) == multiset(Flatten(ws)) + multiset{x}
  {
    var w, rest := ws[0], ws[1..];
    assert ws == [w] + rest;
    FlattenFirst(w, rest);
    if l == 0 {
      assert ws[0 := w + [x]] == [w + [x]] + rest;
      FlattenFirst(w + [x], rest);
    } else {
      FlattenUpdate(rest, l - 1, x);
      AddToRest(ws, l, ws[l] + [x]);
      FlattenFirst(w, rest[l - 1 := rest[l - 1] + [x]]);
    }
  }

  lemma {:induction false} FlattenEmpties<T>(ws: seq<seq<T>>)
    requires forall i :: 0 <= i < |ws| ==> ws[i] == []
    ensures Flatten(ws) == []
  {
    if ws != [] {
      FlattenEmpties(ws[1..]);
    }
  }

  lemma {:induction false} BucketsPartition(ks: seq<Id>, table: map<Id, WaveTask>, level: map<Id, nat>, n: nat)
    requires forall k :: k in ks ==> k in table && k in level && level[k] < n
    ensures multiset(Flatten(BucketsUpTo(ks, table, level, n))) == multiset(TasksOf(ks, table))
    decreases |ks|
  {
    var ws := BucketsUpTo(ks, table, level, n);
    if ks == [] {
      FlattenEmpties(ws);
    } else {
      var k, init := ks[|ks| - 1], ks[..|ks| - 1];
      var vs := BucketsUpTo(init, table, level, n);
      BucketsPartition(init, table, level, n);
      FlattenUpdate(vs, level[k], table[k]);
      assert ws == vs[level[k] := vs[level[k]] + [table[k]]];
      assert multiset(TasksOf(ks, table)) == multiset(TasksOf(init, table)) + multiset{table[k]};
    }
  }

  /** On any graph the waves are non-empty and together hold each filed task exactly once. */
  lemma WavesPartition(ks: seq<Id>, table: map<Id, WaveTask>, level: map<Id, nat>)
    requires forall k :: k in ks ==> k in table && k in level
    ensures var waves := Compact(Buckets(ks, table, level));
            && multiset(Flatten(waves)) == multiset(TasksOf(ks, table))
            && (forall w :: w in waves ==> w != [])
  {
    var ws := Buckets(ks, table, level);
    CompactKeepsContents(ws);
    BucketsPartition(ks, table, level, |ws|);
  }

  ghost predicate FiledAt(ks: seq<Id>, table: map<Id, WaveTask>, level: map<Id, nat>, l: nat, k: Id, t: WaveTask) {
    k in ks && k in table && k in level && level[k] == l && table[k] == t
  }

  /** Level `l` holds only tasks filed under keys of that level. */
  lemma {:induction false} BucketHolds(ks: seq<Id>, table: map<Id, WaveTask>, level: map<Id, nat>, l: nat, j: nat)
    returns (k: Id)
    requires forall k :: k in ks ==> k in table && k in level
    requires j < |Bucket(ks, table, level, l)|
    ensures FiledAt(ks, table, level, l, k, Bucket(ks, table, level, l)[j])
    decreases |ks|
  {
    var last, init := ks[|ks| - 1], ks[..|ks| - 1];
    if j == |Bucket(init, table, level, l)| {
      k := last;
    } else {
      k := BucketHolds(init, table, level, l, j);
    }
  }

  /** Within a level the tasks come in dict order. */
  lemma {:induction false} BucketOrder(ks: seq<Id>, table: map<Id, WaveTask>, level: map<Id, nat>, l: nat, i: nat,
                                       j: nat)
    returns (a: nat, b: nat)
    requires forall k :: k in ks ==> k in table && k in level
    requires i < j < |Bucket(ks, table, level, l)|
    ensures a < b < |ks| && level[ks[a]] == l == level[ks[b]]
    ensures table[ks[a]] == Bucket(ks, table, level, l)[i] && table[ks[b]] == Bucket(ks, table, level, l)[j]
    decreases |ks|
  {
    var init := ks[..|ks| - 1];
    if j < |Bucket(init, table, level, l)| {
      a, b := BucketOrder(init, table, level, l, i, j);
    } else {
      a := BucketPlace(init, table, level, l, i);
      b := |ks| - 1;
    }
  }

  lemma {:induction false} BucketPlace(ks: seq<Id>, table: map<Id, WaveTask>, level: map<Id, nat>, l: nat, i: nat)
    returns (a: nat)
    requires forall k :: k in ks ==> k in table && k in level
    requires i < |Bucket(ks, table, level, l)|
    ensures a < |ks| && level[ks[a]] == l && table[ks[a]] == Bucket(ks, table, level, l)[i]
    decreases |ks|
  {
    var init := ks[..|ks| - 1];
    if i < |Bucket(init, table, level, l)| {
      a := BucketPlace(init, table, level, l, i);
    } else {
      a := |ks| - 1;
    }
  }

  /** Level `l` holds every task filed under a key of that level. */
  lemma {:induction false} InBucket(ks: seq<Id>, table: map<Id, WaveTask>, level: map<Id, nat>, i: nat)
    requires forall k :: k in ks ==> k in table && k in level
    requires i < |ks|
    ensures table[ks[i]] in Bucket(ks, table, level, level[ks[i]])
    decreases |ks|
  {
    if i < |ks| - 1 {
      var init := ks[..|ks| - 1];
      InBucket(init, table, level, i);
    }
  }

  lemma {:induction false} CompactFull<T>(ws: seq<seq<T>>)
    requires forall i :: 0 <= i < |ws| ==> ws[i] != []
    ensures Compact(ws) == ws
  {
    if ws != [] {
      CompactFull(ws[1..]);
    }
  }

  /** On an acyclic graph with at least one task no level is empty, so wave `l` is exactly level `l`. */
  lemma AcyclicWavesAreLevels(g: Graph, ks: seq<Id>, table: map<Id, WaveTask>, level: map<Id, nat>)
    requires level.Keys == (set k | k in ks) && Levelled(g, level.Keys, level) && Acyclic(g, level.Keys)
    requires forall k :: k in ks ==> k in table
    requires ks != []
    ensures Compact(Buckets(ks, table, level)) == Buckets(ks, table, level)
  {
    var ws := Buckets(ks, table, level);
    forall l | 0 <= l < |ws|
      ensures ws[l] != []
    {
      var top := if MaxLevel(level, ks) == 0 then ks[0] else var k :| k in ks && level[k] == MaxLevel(level, ks); k;
      var u := NoGaps(g, level.Keys, level, top, l);
      var i :| 0 <= i < |ks| && ks[i] == u;
      InBucket(ks, table, level, i);
    }
    CompactFull(ws);
  }
}
