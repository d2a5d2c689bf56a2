/**
  `validate_tasks`: the field and reference checks, and the three-colour
  depth-first search for dependency cycles that runs once those pass.
 */
module PlanValidation {
  import opened Graphs
  import opened Text
  import opened WaveLevels

  /** `effort_days`, a float that may be infinite or not a number. */
  datatype Effort = Days(value: real) | NotFinite

  datatype PlanTask = PlanTask(id: string, title: string, status: string, tier: string, effort: Effort,
                               dependsOn: seq<Id>)

  datatype Error =
    | EmptyId(index: nat)
    | BadId(index: nat)
    | DuplicateId(index: nat, first: nat)
    | EmptyTitle(index: nat)
    | BadStatus(index: nat)
    | BadTier(index: nat)
    | BadEffort(index: nat)
    | UnknownDependency(index: nat, dep: Id)
    | Cycle(id: Id)

  const VALID_STATUSES: set<string> := {"pending", "in_progress", "done", "blocked", "skipped"}
  const VALID_TIERS: set<string> := {"T1", "T2", "T3"}

  predicate UlidChar(c: char) {
    '0' <= c <= '9' || 'A' <= c <= 'Z'
  }

  /** The pattern `^[0-9A-Z]{26}$`, whose `$` also matches before a final newline. */
  predicate MatchesUlid(s: string) {
    && (|s| == 26 || (|s| == 27 && s[26] == '\n'))
    && forall i :: 0 <= i < 26 ==> UlidChar(s[i])
  }

  predicate GoodEffort(e: Effort) {
    e.Days? && e.value >= 0.0
  }

  /** Every field of a task other than its dependencies is acceptable. */
  predicate GoodFields(t: PlanTask) {
    && MatchesUlid(t.id)
    && !IsBlank(t.title)
    && t.status in VALID_STATUSES
    && t.tier in VALID_TIERS
    && GoodEffort(t.effort)
  }

  predicate UniqueIds(tasks: seq<PlanTask>) {
    forall i, j :: 0 <= i < j < |tasks| ==> tasks[i].id != tasks[j].id
  }

  predicate Resolved(tasks: seq<PlanTask>) {
    forall i, d :: 0 <= i < |tasks| && d in tasks[i].dependsOn ==> d in Ids(tasks)
  }

  function Ids(tasks: seq<PlanTask>): set<Id> {
    set i | 0 <= i < |tasks| :: tasks[i].id
  }

  /** The dependency graph; a later task with the same id would override an earlier one. */
  function Adjacency(tasks: seq<PlanTask>): (g: Graph)
    ensures g.Keys == Ids(tasks)
  {
    if tasks == [] then map[]
    else
      var t := tasks[|tasks| - 1];
      Adjacency(tasks[..|tasks| - 1])[t.id := t.dependsOn]
  }

  datatype Color = White | Grey | Black

  /** A cycle can be reached from `node`. */
  ghost predicate LeadsToCycle(g: Graph, node: Id) {
    exists a :: Reaches(g, g.Keys, a, a) && (a == node || Reaches(g, g.Keys, node, a))
  }

  lemma LeadsThrough(g: Graph, node: Id, nbr: Id)
    requires Edge(g, g.Keys, node, nbr) && LeadsToCycle(g, nbr)
    ensures LeadsToCycle(g, node)
  {
    var a :| Reaches(g, g.Keys, a, a) && (a == nbr || Reaches(g, g.Keys, nbr, a));
    EdgeReaches(g, g.Keys, node, nbr);
    if a != nbr {
      ReachesTransitive(g, g.Keys, node, nbr, a);
    }
  }

  ghost function Colored(color: map<Id, Color>, c: Color): set<Id> {
    set a | a in color && color[a] == c
  }

  /** The ranks cover the finished ids and fall along every dependency of a finished id. */
  ghost predicate Ranked(g: Graph, color: map<Id, Color>, rank: map<Id, nat>) {
    && rank.Keys == Colored(color, Black)
    && (forall a, d :: a in rank && Edge(g, g.Keys, a, d) ==> d in rank && rank[d] < rank[a])
    && (forall a :: a in rank ==> rank[a] < |rank|)
  }

  /** Every id on the search path reaches `node`. */
  ghost predicate PathReaches(g: Graph, color: map<Id, Color>, node: Id) {
    forall v :: v in Colored(color, Grey) ==> Reaches(g, g.Keys, v, node)
  }

  /** A neighbour on the search path closes a cycle; any other extends the path. */
  lemma PathStep(g: Graph, color: map<Id, Color>, node: Id, nbr: Id)
    requires Edge(g, g.Keys, node, nbr) && node in Colored(color, Grey)
    requires forall v :: v in Colored(color, Grey) && v != node ==> Reaches(g, g.Keys, v, node)
    ensures PathReaches(g, color, nbr)
    ensures nbr in Colored(color, Grey) ==> LeadsToCycle(g, node)
  {
    EdgeReaches(g, g.Keys, node, nbr);
    forall v | v in Colored(color, Grey) && v != node
      ensures Reaches(g, g.Keys, v, nbr)
    {
      ReachesTransitive(g, g.Keys, v, node, nbr);
    }
    if nbr in Colored(color, Grey) {
      assert Reaches(g, g.Keys, nbr, nbr);
    }
  }

  /** An id whose dependencies are all finished can be finished with the next rank. */
  lemma Finish(g: Graph, color: map<Id, Color>, rank: map<Id, nat>, node: Id)
    requires Ranked(g, color, rank) && node in color && color[node] != Black
    requires forall d :: Edge(g, g.Keys, node, d) ==> d in rank
    ensures Ranked(g, color[node := Black], rank[node := |rank|])
  {
    var rank' := rank[node := |rank|];
    assert Colored(color[node := Black], Black) == Colored(color, Black) + {node};
    assert |rank'| == |rank| + 1;
  }

  /** Between two states of the search only white ids have changed, to black. */
  ghost predicate Advances(before: map<Id, Color>, after: map<Id, Color>) {
    && before.Keys == after.Keys
    && forall a :: a in before ==> after[a] == before[a] || (before[a] == White && after[a] == Black)
  }

  /** Putting a white id on the path uses up a white id and leaves the ranks valid. */
  lemma Entering(g: Graph, color: map<Id, Color>, rank: map<Id, nat>, node: Id)
    requires Ranked(g, color, rank) && node in color && color[node] == White
    ensures Ranked(g, color[node := Grey], rank)
    ensures Colored(color[node := Grey], White) < Colored(color, White)
  {
    assert Colored(color[node := Grey], Black) == Colored(color, Black);
    assert node in Colored(color, White);
  }

  lemma WhiteShrinks(before: map<Id, Color>, after: map<Id, Color>)
    requires Advances(before, after)
    ensures Colored(after, White) <= Colored(before, White)
    ensures Colored(after, Grey) == Colored(before, Grey)
  {
  }

  lemma Leaving(before: map<Id, Color>, after: map<Id, Color>, node: Id)
    requires node in before && before[node] == White
    requires Advances(before[node := Grey], after)
    ensures Advances(before, after[node := Black])
  {
  }

  /** The search state; the ghost `rank` numbers the ids in the order they turn black. */
  class Search {
    const adj: Graph
    var color: map<Id, Color>
    ghost var rank: map<Id, nat>

    ghost predicate Valid()
      reads this
    {
      && color.Keys == adj.Keys
      && (forall a, d :: a in adj && d in adj[a] ==> d in adj)
      && Ranked(adj, color, rank)
    }

    constructor (adj: Graph)
      requires forall a, d :: a in adj && d in adj[a] ==> d in adj
      ensures this.adj == adj && Valid() && Colored(color, White) == adj.Keys
    {
      this.adj := adj;
      color := map a | a in adj :: White;
      rank := map[];
    }

    /** `dfs(node)` */
    method Dfs(node: Id) returns (cycle: bool)
      requires Valid() && node in adj && color[node] == White && PathReaches(adj, color, node)
      modifies this`color, this`rank
      ensures cycle ==> LeadsToCycle(adj, node)
      ensures !cycle ==> Valid() && Advances(old(color), color) && color[node] == Black
      decreases Colored(color, White), 0
    {
      color := color[node := Grey];
      Entering(adj, old(color), rank, node);
      ghost var entered := color;
      var i := 0;
      while i < |adj[node]|
        invariant 0 <= i <= |adj[node]|
        invariant Valid() && Advances(entered, color)
        invariant forall j :: 0 <= j < i ==> color[adj[node][j]] == Black
      {
        WhiteShrinks(entered, color);
        var found := Explore(node, adj[node][i]);
        if found {
          return true;
        }
        i := i + 1;
      }
      Finish(adj, color, rank, node);
      Leaving(old(color), color, node);
      color := color[node := Black];
      rank := rank[node := |rank|];
      return false;
    }

    /** One turn of the outer loop: search from `tid` unless an earlier search has been there. */
    method Visit(tid: Id) returns (cycle: bool)
      requires Valid() && NoGrey(color) && tid in adj
      modifies this`color, this`rank
      ensures cycle ==> LeadsToCycle(adj, tid)
      ensures !cycle ==> Valid() && NoGrey(color) && Advances(old(color), color) && color[tid] == Black
    {
      cycle := false;
      if color[tid] == White {
        NoPath(adj, color, tid);
        cycle := Dfs(tid);
      }
    }

    /** One turn of the loop over the neighbours of `node`. */
    method Explore(node: Id, nbr: Id) returns (cycle: bool)
      requires Valid() && node in adj && color[node] == Grey && nbr in adj[node]
      requires forall v :: v in Colored(color, Grey) && v != node ==> Reaches(adj, adj.Keys, v, node)
      modifies this`color, this`rank
      ensures cycle ==> LeadsToCycle(adj, node)
      ensures !cycle ==> Valid() && Advances(old(color), color) && color[nbr] == Black
      decreases Colored(color, White), 1
    {
      PathStep(adj, color, node, nbr);
      if color[nbr] == Grey {
        return true;
      }
      if color[nbr] == White {
        cycle := Dfs(nbr);
        if cycle {
          LeadsThrough(adj, node, nbr);
        }
      } else {
        cycle := false;
      }
    }
  }

  // ---------------------------------------------------------------------------
  // The whole validation
  // ---------------------------------------------------------------------------

  /** `f` is the first index at which the id of task `i` occurs, and it is not `i`. */
  predicate FirstSeen(tasks: seq<PlanTask>, i: nat, f: nat)
    requires i < |tasks|
  {
    f < i && tasks[f].id == tasks[i].id && forall k :: 0 <= k < f ==> tasks[k].id != tasks[i].id
  }

  /** What is wrong with the fields of task `i`. */
  predicate FieldFault(tasks: seq<PlanTask>, i: nat, e: Error)
    requires i < |tasks|
  {
    var t := tasks[i];
    match e
    case EmptyId(n) => n == i && t.id == ""
    case BadId(n) => n == i && t.id != "" && !MatchesUlid(t.id)
    case DuplicateId(n, f) => n == i && FirstSeen(tasks, i, f)
    case EmptyTitle(n) => n == i && IsBlank(t.title)
    case BadStatus(n) => n == i && t.status !in VALID_STATUSES
    case BadTier(n) => n == i && t.tier !in VALID_TIERS
    case BadEffort(n) => n == i && !GoodEffort(t.effort)
    case UnknownDependency(_, _) => false
    case Cycle(_) => false
  }

  predicate ReferenceFault(tasks: seq<PlanTask>, i: nat, e: Error)
    requires i < |tasks|
  {
    match e
    case UnknownDependency(n, d) => n == i && d in tasks[i].dependsOn && d !in Ids(tasks)
    case _ => false
  }

  /** The dict `seen_ids` after the first `n` tasks. */
  ghost predicate Indexed(tasks: seq<PlanTask>, n: nat, seen: map<Id, nat>)
    requires n <= |tasks|
  {
    && seen.Keys == Ids(tasks[..n])
    && forall id :: id in seen ==>
         && seen[id] < n && tasks[seen[id]].id == id
         && forall k :: 0 <= k < seen[id] ==> tasks[k].id != id
  }

  method CheckFields(tasks: seq<PlanTask>, i: nat, seen: map<Id, nat>) returns (errors: seq<Error>)
    requires i < |tasks| && Indexed(tasks, i, seen)
    ensures forall e :: e in errors <==> FieldFault(tasks, i, e)
  {
    var t := tasks[i];
    errors := [];
    if t.id == "" {
      errors := errors + [EmptyId(i)];
    } else if !MatchesUlid(t.id) {
      errors := errors + [BadId(i)];
    }
    if t.id in seen {
      errors := errors + [DuplicateId(i, seen[t.id])];
    } else {
      forall f | 0 <= f < i
        ensures tasks[f].id != t.id
      {
        assert tasks[..i][f].id in Ids(tasks[..i]);
      }
    }
    if IsBlank(t.title) {
      errors := errors + [EmptyTitle(i)];
    }
    if t.status !in VALID_STATUSES {
      errors := errors + [BadStatus(i)];
    }
    if t.tier !in VALID_TIERS {
      errors := errors + [BadTier(i)];
    }
    if !GoodEffort(t.effort) {
      errors := errors + [BadEffort(i)];
    }
  }

  method CheckAllFields(tasks: seq<PlanTask>) returns (errors: seq<Error>, ids: set<Id>)
    ensures ids == Ids(tasks)
    ensures forall e :: e in errors <==> exists i :: 0 <= i < |tasks| && FieldFault(tasks, i, e)
  {
    errors := [];
    var seen: map<Id, nat> := map[];
    for i := 0 to |tasks|
      invariant Indexed(tasks, i, seen)
      invariant forall e :: e in errors <==> exists k :: 0 <= k < i && FieldFault(tasks, k, e)
    {
      var more := CheckFields(tasks, i, seen);
      errors := errors + more;
      assert tasks[..i + 1] == tasks[..i] + [tasks[i]];
      assert Ids(tasks[..i + 1]) == Ids(tasks[..i]) + {tasks[i].id};
      if tasks[i].id !in seen {
        forall k | 0 <= k < i
          ensures tasks[k].id != tasks[i].id
        {
          assert tasks[..i][k].id in Ids(tasks[..i]);
        }
        seen := seen[tasks[i].id := i];
      }
    }
    assert tasks[..|tasks|] == tasks;
    ids := seen.Keys;
  }

  method CheckReferences(tasks: seq<PlanTask>, ids: set<Id>) returns (errors: seq<Error>)
    requires ids == Ids(tasks)
    ensures forall e :: e in errors <==> exists i :: 0 <= i < |tasks| && ReferenceFault(tasks, i, e)
  {
    errors := [];
    for i := 0 to |tasks|
      invariant forall e :: e in errors <==> exists k :: 0 <= k < i && ReferenceFault(tasks, k, e)
    {
      var deps := tasks[i].dependsOn;
      ghost var before := errors;
      for j := 0 to |deps|
        invariant forall e :: e in errors <==> e in before || (ReferenceFault(tasks, i, e) && e.dep in deps[..j])
      {
        assert deps[..j + 1] == deps[..j] + [deps[j]];
        if deps[j] !in ids {
          errors := errors + [UnknownDependency(i, deps[j])];
        }
      }
      assert deps[..|deps|] == deps;
    }
  }

  ghost predicate NoGrey(color: map<Id, Color>) {
    forall a :: a in color ==> color[a] != Grey
  }

  ghost predicate AllBlack(tasks: seq<PlanTask>, n: nat, color: map<Id, Color>) {
    n <= |tasks| && forall k :: 0 <= k < n ==> tasks[k].id in color && color[tasks[k].id] == Black
  }

  lemma StillBlack(tasks: seq<PlanTask>, n: nat, before: map<Id, Color>, after: map<Id, Color>)
    requires AllBlack(tasks, n, before) && Advances(before, after)
    requires n < |tasks| && tasks[n].id in after && after[tasks[n].id] == Black
    ensures AllBlack(tasks, n + 1, after)
  {
    forall k | 0 <= k < n + 1
      ensures tasks[k].id in after && after[tasks[k].id] == Black
    {
      if k < n {
        assert before[tasks[k].id] == Black;
      }
    }
  }

  lemma NoPath(g: Graph, color: map<Id, Color>, node: Id)
    requires NoGrey(color)
    ensures PathReaches(g, color, node)
  {
  }

  lemma AllBlackIsAcyclic(tasks: seq<PlanTask>, g: Graph, color: map<Id, Color>, rank: map<Id, nat>)
    requires g.Keys == Ids(tasks) && color.Keys == g.Keys && Ranked(g, color, rank)
    requires AllBlack(tasks, |tasks|, color)
    ensures Acyclic(g, g.Keys)
  {
    forall a | a in g
      ensures a in rank
    {
      var k :| 0 <= k < |tasks| && tasks[k].id == a;
      assert a in Colored(color, Black);
    }
    RankMeansAcyclic(g, g.Keys, rank);
  }

  /** A finished id leads to no cycle. */
  lemma BlackIsSafe(g: Graph, color: map<Id, Color>, rank: map<Id, nat>, a: Id)
    requires Ranked(g, color, rank) && a in color && color[a] == Black
    ensures !LeadsToCycle(g, a)
  {
    assert a in Colored(color, Black);
    if c :| Reaches(g, g.Keys, c, c) && (c == a || Reaches(g, g.Keys, a, c)) {
      if c != a {
        RankedReaches(g, g.Keys, rank, a, c);
      }
      RankedReaches(g, g.Keys, rank, c, c);
    }
  }

  /** Task `i` is the first in the list that leads to a cycle. */
  ghost predicate FirstLeading(tasks: seq<PlanTask>, g: Graph, i: nat) {
    && i < |tasks|
    && LeadsToCycle(g, tasks[i].id)
    && forall k :: 0 <= k < i ==> !LeadsToCycle(g, tasks[k].id)
  }

  lemma IsFirstLeading(tasks: seq<PlanTask>, g: Graph, color: map<Id, Color>, rank: map<Id, nat>, i: nat)
    requires i < |tasks| && AllBlack(tasks, i, color) && Ranked(g, color, rank) && LeadsToCycle(g, tasks[i].id)
    ensures FirstLeading(tasks, g, i)
  {
    forall k | 0 <= k < i
      ensures !LeadsToCycle(g, tasks[k].id)
    {
      BlackIsSafe(g, color, rank, tasks[k].id);
    }
  }

  /** The search over the whole graph, from every id that is still white. */
  method FindCycle(tasks: seq<PlanTask>, adj: Graph) returns (root: seq<Id>)
    requires adj.Keys == Ids(tasks)
    requires forall a, d :: a in adj && d in adj[a] ==> d in adj
    ensures |root| <= 1
    ensures root == [] <==> Acyclic(adj, adj.Keys)
    ensures root != [] ==> exists i: nat :: FirstLeading(tasks, adj, i) && tasks[i].id == root[0]
  {
    var search := new Search(adj);
    for i := 0 to |tasks|
      invariant search.adj == adj && search.Valid()
      invariant NoGrey(search.color)
      invariant AllBlack(tasks, i, search.color)
    {
      var tid := tasks[i].id;
      assert tid in Ids(tasks);
      ghost var before, rank := search.color, search.rank;
      var cycle := search.Visit(tid);
      if cycle {
        CycleFound(adj, tid);
        IsFirstLeading(tasks, adj, before, rank, i);
        return [tid];
      }
      StillBlack(tasks, i, before, search.color);
    }
    AllBlackIsAcyclic(tasks, adj, search.color, search.rank);
    root := [];
  }

  lemma CycleFound(g: Graph, node: Id)
    requires LeadsToCycle(g, node)
    ensures !Acyclic(g, g.Keys)
  {
    var a :| Reaches(g, g.Keys, a, a);
    ReachesInPlan(g, g.Keys, a, a);
  }

  lemma {:induction false} AdjacencyRow(tasks: seq<PlanTask>, i: nat)
    requires i < |tasks| && UniqueIds(tasks)
    ensures tasks[i].id in Adjacency(tasks) && Adjacency(tasks)[tasks[i].id] == tasks[i].dependsOn
    decreases |tasks|
  {
    var init := tasks[..|tasks| - 1];
    if i < |tasks| - 1 {
      AdjacencyRow(init, i);
      assert init[i] == tasks[i];
    }
  }

  /** The plan is well formed apart from its dependency structure. */
  ghost predicate FaultFree(tasks: seq<PlanTask>) {
    && (forall i :: 0 <= i < |tasks| ==> GoodFields(tasks[i]))
    && UniqueIds(tasks)
    && Resolved(tasks)
  }

  /** What the fields of a plan without faults look like. */
  lemma FaultFreeFields(tasks: seq<PlanTask>)
    ensures FaultFree(tasks) <==>
              && (forall t :: t in tasks ==>
                    && MatchesUlid(t.id) && !IsBlank(t.title)
                    && t.status in {"pending", "in_progress", "done", "blocked", "skipped"}
                    && t.tier in {"T1", "T2", "T3"}
                    && t.effort.Days? && t.effort.value >= 0.0)
              && UniqueIds(tasks) && Resolved(tasks)
  {
  }

  /** The reported faults are exhaustive: none reported means the fields, ids and references are all right. */
  lemma NoFaultReported(tasks: seq<PlanTask>)
    ensures (forall i, e :: 0 <= i < |tasks| ==> !FieldFault(tasks, i, e) && !ReferenceFault(tasks, i, e))
       <==> FaultFree(tasks)
  {
    if forall i, e :: 0 <= i < |tasks| ==> !FieldFault(tasks, i, e) && !ReferenceFault(tasks, i, e) {
      forall i | 0 <= i < |tasks|
        ensures GoodFields(tasks[i])
      {
        assert !FieldFault(tasks, i, EmptyId(i)) && !FieldFault(tasks, i, BadId(i)) &&
          !FieldFault(tasks, i, EmptyTitle(i));
        assert !FieldFault(tasks, i, BadStatus(i)) && !FieldFault(tasks, i, BadTier(i)) &&
          !FieldFault(tasks, i, BadEffort(i));
      }
      if !UniqueIds(tasks) {
        var k, i :| 0 <= k < i < |tasks| && tasks[k].id == tasks[i].id;
        var f := FirstIndex(tasks, i, k);
        assert FieldFault(tasks, i, DuplicateId(i, f));
        assert false;
      }
      forall i, d | 0 <= i < |tasks| && d in tasks[i].dependsOn
        ensures d in Ids(tasks)
      {
        assert !ReferenceFault(tasks, i, UnknownDependency(i, d));
      }
    }
  }

  lemma AllReported(tasks: seq<PlanTask>, errors: seq<Error>)
    requires forall e :: e in errors <==>
               exists i :: 0 <= i < |tasks| && (FieldFault(tasks, i, e) || ReferenceFault(tasks, i, e))
    ensures errors == [] <==> FaultFree(tasks)
    ensures forall id :: Cycle(id) !in errors
  {
    NoFaultReported(tasks);
    if errors == [] {
      forall i, e | 0 <= i < |tasks|
        ensures !FieldFault(tasks, i, e) && !ReferenceFault(tasks, i, e)
      {
        assert e !in errors;
      }
    } else {
      assert errors[0] in errors;
    }
  }

  lemma AdjacencyClosed(tasks: seq<PlanTask>)
    requires FaultFree(tasks)
    ensures forall a, d :: a in Adjacency(tasks) && d in Adjacency(tasks)[a] ==> d in Adjacency(tasks)
  {
    forall a, d | a in Adjacency(tasks) && d in Adjacency(tasks)[a]
      ensures d in Adjacency(tasks)
    {
      var i :| 0 <= i < |tasks| && tasks[i].id == a;
      AdjacencyRow(tasks, i);
    }
  }

  lemma {:induction false} FirstIndex(tasks: seq<PlanTask>, i: nat, k: nat) returns (f: nat)
    requires k < i < |tasks| && tasks[k].id == tasks[i].id
    ensures FirstSeen(tasks, i, f)
    decreases k
  {
    if c :| 0 <= c < k && tasks[c].id == tasks[i].id {
      f := FirstIndex(tasks, i, c);
    } else {
      f := k;
    }
  }

  method ValidateTasks(tasks: seq<PlanTask>) returns (errors: seq<Error>)
    ensures forall e :: e in errors && !e.Cycle? <==>
              exists i :: 0 <= i < |tasks| && (FieldFault(tasks, i, e) || ReferenceFault(tasks, i, e))
    ensures errors == [] <==> FaultFree(tasks) && Acyclic(Adjacency(tasks), Ids(tasks))
    ensures (exists id :: Cycle(id) in errors) <==> FaultFree(tasks) && !Acyclic(Adjacency(tasks), Ids(tasks))
    ensures forall id :: Cycle(id) in errors ==>
              errors == [Cycle(id)] && exists i: nat :: FirstLeading(tasks, Adjacency(tasks), i) && tasks[i].id == id
  {
    var ids, references;
    errors, ids := CheckAllFields(tasks);
    references := CheckReferences(tasks, ids);
    errors := errors + references;
    AllReported(tasks, errors);
    if errors == [] {
      var adj := Adjacency(tasks);
      AdjacencyClosed(tasks);
      var root := FindCycle(tasks, adj);
      if root != [] {
        errors := errors + [Cycle(root[0])];
        assert errors == [Cycle(root[0])];
      }
    }
  }

  /** The id lies on a cycle: some closed chain passes through it. */
  ghost predicate OnCycle(g: Graph, id: Id) {
    exists p :: Chain(g, g.Keys, p) && |p| >= 2 && p[0] == p[|p| - 1] && id in p
  }

  /** An id lies on a cycle if and only if it is among its own ancestors. */
  lemma OnCycleIff(g: Graph, id: Id)
    ensures OnCycle(g, id) <==> Reaches(g, g.Keys, id, id)
  {
    if p :| Chain(g, g.Keys, p) && |p| >= 2 && p[0] == p[|p| - 1] && id in p {
      var i :| 0 <= i < |p| && p[i] == id;
      if 0 < i < |p| - 1 {
        SliceReaches(g, p, 0, i);
        SliceReaches(g, p, i, |p| - 1);
        ReachesTransitive(g, g.Keys, id, p[0], id);
      }
    }
    if p :| Chain(g, g.Keys, p) && |p| >= 2 && p[0] == id && p[|p| - 1] == id {
      assert id in p;
    }
  }

  lemma SliceReaches(g: Graph, p: seq<Id>, i: nat, j: nat)
    requires Chain(g, g.Keys, p) && i < j < |p|
    ensures Reaches(g, g.Keys, p[i], p[j])
  {
    var q := p[i..j + 1];
    forall k | 0 <= k < |q| - 1
      ensures Edge(g, g.Keys, q[k], q[k + 1])
    {
      assert Edge(g, g.Keys, p[i + k], p[i + k + 1]);
    }
    assert Edge(g, g.Keys, p[i], p[i + 1]);
    assert Chain(g, g.Keys, q);
  }

  const ID_A: Id := "0000000000000000000000000A"
  const ID_B: Id := "0000000000000000000000000B"

  /** A task that depends on one that depends on itself. */
  function DependantPlan(): seq<PlanTask> {
    [PlanTask(ID_A, "a", "pending", "T1", Days(0.0), [ID_B]), PlanTask(ID_B, "b", "pending", "T1", Days(0.0), [ID_B])]
  }

  lemma DependantIsFaultFree()
    ensures FaultFree(DependantPlan())
    ensures DependantGraph(Adjacency(DependantPlan()))
  {
    var tasks := DependantPlan();
    DependantFields();
    assert ID_A[25] != ID_B[25];
    assert tasks[0].id in Ids(tasks) && tasks[1].id in Ids(tasks);
    AdjacencyRow(tasks, 0);
    AdjacencyRow(tasks, 1);
    assert forall k :: k in Ids(tasks) ==> k == ID_A || k == ID_B;
  }

  lemma DependantFields()
    ensures GoodFields(DependantPlan()[0]) && GoodFields(DependantPlan()[1])
  {
    var tasks := DependantPlan();
    assert !IsSpace(tasks[0].title[0]) && !IsSpace(tasks[1].title[0]);
  }

  predicate DependantGraph(g: Graph) {
    ID_A != ID_B && g == map[ID_A := [ID_B], ID_B := [ID_B]]
  }

  lemma DependantOffCycle(g: Graph)
    requires DependantGraph(g)
    ensures LeadsToCycle(g, ID_A) && !OnCycle(g, ID_A)
  {
    assert Edge(g, g.Keys, ID_A, ID_B) && Edge(g, g.Keys, ID_B, ID_B);
    EdgeReaches(g, g.Keys, ID_A, ID_B);
    EdgeReaches(g, g.Keys, ID_B, ID_B);
    OnCycleIff(g, ID_A);
    forall p | Chain(g, g.Keys, p) && |p| >= 2
      ensures p[|p| - 1] == ID_B
    {
      assert Edge(g, g.Keys, p[|p| - 2], p[|p| - 2 + 1]);
    }
  }

  /** Validating that plan reports the dependant, which lies on no cycle. */
  method ReportsDependant() returns (errors: seq<Error>)
    ensures errors == [Cycle(ID_A)] && !OnCycle(Adjacency(DependantPlan()), ID_A)
  {
    var tasks := DependantPlan();
    DependantIsFaultFree();
    DependantOffCycle(Adjacency(tasks));
    CycleFound(Adjacency(tasks), ID_A);
    errors := ValidateTasks(tasks);
    ghost var id :| Cycle(id) in errors;
    ghost var i: nat :| FirstLeading(tasks, Adjacency(tasks), i) && tasks[i].id == id;
    assert i == 0;
  }

  /** Of the ids the pattern accepts, those of 26 characters are the ones without a final newline. */
  lemma UlidLength(s: string)
    requires MatchesUlid(s)
    ensures |s| == 26 <==> s[|s| - 1] != '\n'
  {
    assert UlidChar(s[25]);
  }

  /** It accepts a final newline after an id, and only after an id. */
  lemma NewlineAllowed(s: string)
    ensures MatchesUlid(s + "\n") <==> |s| == 26 && MatchesUlid(s)
  {
    var t := s + "\n";
    assert forall i :: 0 <= i < |s| ==> t[i] == s[i];
    if MatchesUlid(t) {
      UlidLength(t);
    }
  }

  lemma SingleTaskPlan(t: PlanTask)
    requires GoodFields(t) && t.dependsOn == []
    ensures FaultFree([t]) && Acyclic(Adjacency([t]), Ids([t]))
  {
    var g, ids := Adjacency([t]), Ids([t]);
    AdjacencyRow([t], 0);
    forall a | a in ids
      ensures !Reaches(g, ids, a, a)
    {
      if Reaches(g, ids, a, a) {
        var b := ReachesFirst(g, ids, a, a);
        assert false;
      }
    }
  }

  /** So the validator accepts a plan whose id is one character too long. */
  method AcceptsNewline(id: Id) returns (tasks: seq<PlanTask>, errors: seq<Error>)
    requires |id| == 26 && MatchesUlid(id)
    ensures |tasks| == 1 && tasks[0].id == id + "\n" && errors == []
  {
    NewlineAllowed(id);
    var t := PlanTask(id + "\n", "a", "pending", "T1", Days(0.0), []);
    assert !IsSpace(t.title[0]);
    SingleTaskPlan(t);
    tasks := [t];
    errors := ValidateTasks(tasks);
  }

  /** With unique ids and resolved references the dependencies of a task are in-plan edges of the graph. */
  lemma DependencyIsEdge(tasks: seq<PlanTask>, i: nat, d: Id)
    requires UniqueIds(tasks) && Resolved(tasks) && i < |tasks| && d in tasks[i].dependsOn
    ensures Edge(Adjacency(tasks), Ids(tasks), tasks[i].id, d)
  {
    AdjacencyRow(tasks, i);
    assert tasks[i].id in Ids(tasks);
  }

  /**
    The validator feeds the leveller: a plan it accepts is levelled so that
    every task is at its longest-path depth, above all it depends on.
   */
  lemma ValidPlanLevels(tasks: seq<PlanTask>, level: map<Id, nat>, i: nat)
    requires UniqueIds(tasks) && Resolved(tasks) && Acyclic(Adjacency(tasks), Ids(tasks))
    requires Levelled(Adjacency(tasks), Ids(tasks), level) && level.Keys == Ids(tasks)
    requires i < |tasks|
    ensures tasks[i].id in level && AtDepth(tasks, level, i)
    ensures forall d :: d in tasks[i].dependsOn ==> d in level && level[d] < level[tasks[i].id]
  {
    assert tasks[i].id in Ids(tasks);
    TaskDepth(Adjacency(tasks), Ids(tasks), level, tasks[i].id);
    forall d | d in tasks[i].dependsOn
      ensures d in level && level[d] < level[tasks[i].id]
    {
      DependencyIsEdge(tasks, i, d);
      EdgeFalls(Adjacency(tasks), Ids(tasks), level, tasks[i].id, d);
    }
  }

  /** The task is at its longest-path depth. */
  ghost predicate AtDepth(tasks: seq<PlanTask>, level: map<Id, nat>, i: nat)
    requires i < |tasks| && tasks[i].id in level
  {
    IsDepth(Adjacency(tasks), Ids(tasks), tasks[i].id, level[tasks[i].id])
  }

  lemma TaskDepth(g: Graph, ids: set<Id>, level: map<Id, nat>, id: Id)
    requires Acyclic(g, ids) && Levelled(g, ids, level) && level.Keys == ids && id in ids
    ensures IsDepth(g, ids, id, level[id])
  {
    AcyclicLevelsAreDepths(g, ids, level);
  }

  lemma EdgeFalls(g: Graph, ids: set<Id>, level: map<Id, nat>, t: Id, d: Id)
    requires Acyclic(g, ids) && Levelled(g, ids, level) && level.Keys == ids && Edge(g, ids, t, d)
    ensures d in level && t in level && level[d] < level[t]
  {
    AcyclicLevels(g, ids, level);
  }
}
