/**
  The knowledge log: an append-only file of records whose loading is
  last-write-wins with tombstones, against a plain ordered map of entries.
 */
module BrainLog {
  import opened Wrappers
  import opened Collections
  import Decimal

  datatype EntryId = EntryId(text: string)

  datatype Entry = Entry(
    id: EntryId,
    productId: string,
    gate: string,
    wave: string,
    kind: string,
    content: string,
    sourcePath: string,
    ts: string,
    weight: real,
    embedding: seq<real>)

  /** A line of the index file, by how the readers treat it. */
  datatype Line =
    | Unreadable                   // blank, or not JSON
    | Incomplete(id: EntryId)      // a record that lacks a required field
    | Tombstone(id: EntryId)
    | Put(entry: Entry)

  // ---------------------------------------------------------------------------
  // Loading
  // ---------------------------------------------------------------------------

  /** The ids in order of first put, and the entries that are live. */
  datatype Loaded = Loaded(order: seq<EntryId>, live: map<EntryId, Entry>)

  function ReadLine(l: Loaded, line: Line): Loaded {
    match line
    case Unreadable => l
    case Incomplete(_) => l
    case Tombstone(id) => l.(live := l.live - {id})
    case Put(e) => Loaded(if e.id in l.order then l.order else l.order + [e.id], l.live[e.id := e])
  }

  function Replay(lines: seq<Line>): Loaded {
    if lines == [] then Loaded([], map[]) else ReadLine(Replay(lines[..|lines| - 1]), lines[|lines| - 1])
  }

  function LiveIn(order: seq<EntryId>, live: map<EntryId, Entry>): seq<Entry> {
    if order == [] then []
    else
      var k := order[|order| - 1];
      LiveIn(order[..|order| - 1], live) + if k in live then [live[k]] else []
  }

  /** `_load_entries` */
  function Load(lines: seq<Line>): seq<Entry> {
    LiveIn(Replay(lines).order, Replay(lines).live)
  }

  method LoadEntries(lines: seq<Line>) returns (entries: seq<Entry>)
    ensures entries == Load(lines)
  {
    var order: seq<EntryId>, seen: set<EntryId>, live: map<EntryId, Entry> := [], {}, map[];
    for i := 0 to |lines|
      invariant Loaded(order, live) == Replay(lines[..i])
      invariant seen == set k | k in order
    {
      assert lines[..i + 1][..i] == lines[..i];
      match lines[i] {
        case Tombstone(id) =>
          live := live - {id};
        case Put(e) =>
          if e.id !in seen {
            order, seen := order + [e.id], seen + {e.id};
          }
          live := live[e.id := e];
        case _ =>
      }
    }
    assert lines[..|lines|] == lines;
    entries := [];
    for i := 0 to |order|
      invariant entries == LiveIn(order[..i], live)
    {
      assert order[..i + 1][..i] == order[..i];
      if order[i] in live {
        entries := entries + [live[order[i]]];
      }
    }
    assert order[..|order|] == order;
  }

  ghost predicate WellLoaded(l: Loaded) {
    && Distinct(l.order)
    && (forall k :: k in l.live ==> k in l.order && l.live[k].id == k)
  }

  lemma {:induction false} ReplayWellLoaded(lines: seq<Line>)
    ensures WellLoaded(Replay(lines))
    decreases |lines|
  {
    if lines != [] {
      ReplayWellLoaded(lines[..|lines| - 1]);
    }
  }

  lemma ReplayAppend(lines: seq<Line>, line: Line)
    ensures Replay(lines + [line]) == ReadLine(Replay(lines), line)
  {
    assert (lines + [line])[..|lines|] == lines;
  }

  // ---------------------------------------------------------------------------
  // The ordered map
  // ---------------------------------------------------------------------------

  function Without(es: seq<Entry>, id: EntryId): seq<Entry> {
    if es == [] then []
    else Without(es[..|es| - 1], id) + if es[|es| - 1].id == id then [] else [es[|es| - 1]]
  }

  /** The same list with one entry rewritten in its place. */
  function Replace(es: seq<Entry>, e: Entry): (r: seq<Entry>)
    ensures |r| == |es|
    ensures forall i :: 0 <= i < |es| ==> r[i] == if es[i].id == e.id then e else es[i]
  {
    seq(|es|, i requires 0 <= i < |es| => if es[i].id == e.id then e else es[i])
  }

  function Upgrade(e: Entry, vectors: map<EntryId, seq<real>>): Entry {
    if e.embedding == [] && e.id in vectors then e.(embedding := vectors[e.id]) else e
  }

  function UpgradeAll(es: seq<Entry>, vectors: map<EntryId, seq<real>>): (r: seq<Entry>)
    ensures |r| == |es| && forall i :: 0 <= i < |es| ==> r[i] == Upgrade(es[i], vectors)
  {
    seq(|es|, i requires 0 <= i < |es| => Upgrade(es[i], vectors))
  }

  ghost predicate HasId(es: seq<Entry>, id: EntryId) {
    exists i :: 0 <= i < |es| && es[i].id == id
  }

  // ---------------------------------------------------------------------------
  // Appending a line
  // ---------------------------------------------------------------------------

  lemma {:induction false} LiveIgnores(order: seq<EntryId>, live: map<EntryId, Entry>, other: map<EntryId, Entry>)
    requires forall k :: k in order ==> (k in live <==> k in other) && (k in live ==> live[k] == other[k])
    ensures LiveIn(order, live) == LiveIn(order, other)
    decreases |order|
  {
    if order != [] {
      LiveIgnores(order[..|order| - 1], live, other);
    }
  }

  lemma {:induction false} LiveWithout(order: seq<EntryId>, live: map<EntryId, Entry>, id: EntryId)
    requires forall k :: k in live ==> live[k].id == k
    ensures LiveIn(order, live - {id}) == Without(LiveIn(order, live), id)
    decreases |order|
  {
    if order != [] {
      var init, k := order[..|order| - 1], order[|order| - 1];
      LiveWithout(init, live, id);
      var es := LiveIn(order, live);
      if k in live {
        assert es[..|es| - 1] == LiveIn(init, live);
        assert live[k].id == k;
      } else {
        assert es == LiveIn(init, live);
      }
    }
  }

  lemma {:induction false} LiveReplace(order: seq<EntryId>, live: map<EntryId, Entry>, e: Entry)
    requires forall k :: k in live ==> live[k].id == k
    requires e.id in live
    ensures LiveIn(order, live[e.id := e]) == Replace(LiveIn(order, live), e)
    decreases |order|
  {
    if order != [] {
      LiveReplace(order[..|order| - 1], live, e);
    }
  }

  lemma {:induction false} LiveHas(order: seq<EntryId>, live: map<EntryId, Entry>, id: EntryId)
    requires forall k :: k in live ==> k in order && live[k].id == k
    ensures HasId(LiveIn(order, live), id) <==> id in live
  {
    LiveLists(order, live);
    if id in live {
      var j := LivePosition(order, live, id);
    }
  }

  /** Every loaded entry is live under its own id. */
  lemma {:induction false} LiveLists(order: seq<EntryId>, live: map<EntryId, Entry>)
    requires forall k :: k in live ==> live[k].id == k
    ensures forall i :: 0 <= i < |LiveIn(order, live)| ==>
              && LiveIn(order, live)[i].id in order && LiveIn(order, live)[i].id in live
              && live[LiveIn(order, live)[i].id] == LiveIn(order, live)[i]
    decreases |order|
  {
    if order != [] {
      LiveLists(order[..|order| - 1], live);
    }
  }

  lemma {:induction false} LivePosition(order: seq<EntryId>, live: map<EntryId, Entry>, id: EntryId) returns (j: nat)
    requires id in live && id in order
    ensures j < |LiveIn(order, live)| && LiveIn(order, live)[j] == live[id]
    decreases |order|
  {
    var init, k := order[..|order| - 1], order[|order| - 1];
    if k == id {
      j := |LiveIn(init, live)|;
    } else {
      j := LivePosition(init, live, id);
    }
  }

  lemma {:induction false} LiveDistinct(order: seq<EntryId>, live: map<EntryId, Entry>)
    requires Distinct(order) && forall k :: k in live ==> live[k].id == k
    ensures forall i, j :: 0 <= i < j < |LiveIn(order, live)| ==> LiveIn(order, live)[i].id != LiveIn(order, live)[j].id
    decreases |order|
  {
    if order != [] {
      LiveDistinct(order[..|order| - 1], live);
      LiveLists(order[..|order| - 1], live);
    }
  }

  /** A put under an id that was never put before goes to the end. */
  lemma LoadPut(lines: seq<Line>, e: Entry)
    requires e.id !in Replay(lines).order
    ensures Load(lines + [Put(e)]) == Load(lines) + [e]
  {
    var l := Replay(lines);
    ReplayAppend(lines, Put(e));
    LiveIgnores(l.order, l.live[e.id := e], l.live);
    assert (l.order + [e.id])[..|l.order|] == l.order;
  }

  /** A tombstone removes its entry and nothing else. */
  lemma LoadTombstone(lines: seq<Line>, id: EntryId)
    ensures Load(lines + [Tombstone(id)]) == Without(Load(lines), id)
    ensures forall e :: e in Load(lines + [Tombstone(id)]) <==> e in Load(lines) && e.id != id
  {
    ReplayWellLoaded(lines);
    ReplayAppend(lines, Tombstone(id));
    LiveWithout(Replay(lines).order, Replay(lines).live, id);
    WithoutHolds(Load(lines), id);
  }

  lemma {:induction false} WithoutHolds(es: seq<Entry>, id: EntryId)
    ensures forall e :: e in Without(es, id) <==> e in es && e.id != id
    decreases |es|
  {
    if es != [] {
      WithoutHolds(es[..|es| - 1], id);
      assert es == es[..|es| - 1] + [es[|es| - 1]];
    }
  }

  /** Taking an entry out goes entry by entry, so that the others keep their order. */
  lemma {:induction false} WithoutAppend(a: seq<Entry>, b: seq<Entry>, id: EntryId)
    ensures Without(a + b, id) == Without(a, id) + Without(b, id)
    decreases |b|
  {
    if b != [] {
      var init, e := b[..|b| - 1], b[|b| - 1];
      WithoutAppend(a, init, id);
      assert (a + b)[..|a + b| - 1] == a + init && (a + b)[|a + b| - 1] == e;
      Associate(Without(a, id), Without(init, id), if e.id == id then [] else [e]);
    } else {
      assert a + b == a;
    }
  }

  /** A line that cannot be read, or lacks a field, changes nothing. */
  lemma LoadSkips(lines: seq<Line>, line: Line)
    requires line == Unreadable || line.Incomplete?
    ensures Load(lines + [line]) == Load(lines)
  {
    ReplayAppend(lines, line);
  }

  /** A tombstone followed by a new record for a live id rewrites the entry where it stands. */
  lemma LoadRewrite(lines: seq<Line>, e: Entry)
    requires HasId(Load(lines), e.id)
    ensures Load(lines + [Tombstone(e.id), Put(e)]) == Replace(Load(lines), e)
  {
    var l := Replay(lines);
    ReplayWellLoaded(lines);
    LiveHas(l.order, l.live, e.id);
    ReplayAppend(lines, Tombstone(e.id));
    ReplayAppend(lines + [Tombstone(e.id)], Put(e));
    assert lines + [Tombstone(e.id), Put(e)] == lines + [Tombstone(e.id)] + [Put(e)];
    assert (l.live - {e.id})[e.id := e] == l.live[e.id := e];
    LiveReplace(l.order, l.live, e);
  }

  lemma LoadDistinct(lines: seq<Line>)
    ensures forall i, j :: 0 <= i < j < |Load(lines)| ==> Load(lines)[i].id != Load(lines)[j].id
  {
    ReplayWellLoaded(lines);
    LiveDistinct(Replay(lines).order, Replay(lines).live);
  }

  // ---------------------------------------------------------------------------
  // Ids
  // ---------------------------------------------------------------------------

  const ID_PREFIX: string := "brain-"

  /** The id that a line carries, whatever else is wrong with it. */
  function LineId(line: Line): Option<EntryId> {
    match line
    case Unreadable => None
    case Incomplete(id) => Some(id)
    case Tombstone(id) => Some(id)
    case Put(e) => Some(e.id)
  }

  ghost predicate Logged(lines: seq<Line>, id: EntryId) {
    exists i :: 0 <= i < |lines| && LineId(lines[i]) == Some(id)
  }

  /** The number in an id, if it has the prefix and `int` accepts the rest. */
  function IdNumber(id: EntryId): Option<int> {
    if ID_PREFIX <= id.text then Decimal.ParseInt(id.text[|ID_PREFIX|..]) else None
  }

  function FormatId(n: int): EntryId {
    EntryId(ID_PREFIX + Decimal.Print03(n))
  }

  lemma FormatParses(n: int)
    ensures IdNumber(FormatId(n)) == Some(n)
  {
    Decimal.ParsePrint03(n);
    assert FormatId(n).text[|ID_PREFIX|..] == Decimal.Print03(n);
  }

  function Numbers(lines: seq<Line>): seq<int> {
    if lines == [] then []
    else
      var rest := Numbers(lines[..|lines| - 1]);
      match LineId(lines[|lines| - 1])
      case Some(id) => (match IdNumber(id) case Some(n) => rest + [n] case None => rest)
      case None => rest
  }

  /** `max(ids, default=0)` */
  function Max(ns: seq<int>): (m: int)
    ensures forall n :: n in ns ==> n <= m
    ensures if ns == [] then m == 0 else m in ns
  {
    if ns == [] then 0
    else if |ns| == 1 then ns[0]
    else
      var m := Max(ns[..|ns| - 1]);
      assert ns == ns[..|ns| - 1] + [ns[|ns| - 1]];
      if ns[|ns| - 1] > m then ns[|ns| - 1] else m
  }

  function NextId(lines: seq<Line>): EntryId {
    FormatId(Max(Numbers(lines)) + 1)
  }

  method ComputeNextId(lines: seq<Line>) returns (id: EntryId)
    ensures id == NextId(lines)
  {
    var ids: seq<int> := [];
    for i := 0 to |lines|
      invariant ids == Numbers(lines[..i])
    {
      assert lines[..i + 1][..i] == lines[..i];
      var found := LineId(lines[i]);
      if found.Some? {
        var n := IdNumber(found.value);
        if n.Some? {
          ids := ids + [n.value];
        }
      }
    }
    assert lines[..|lines|] == lines;
    id := FormatId(Max(ids) + 1);
  }

  lemma {:induction false} NumberCollected(lines: seq<Line>, i: nat)
    requires i < |lines| && LineId(lines[i]).Some? && IdNumber(LineId(lines[i]).value).Some?
    ensures IdNumber(LineId(lines[i]).value).value in Numbers(lines)
    decreases |lines|
  {
    if i < |lines| - 1 {
      NumberCollected(lines[..|lines| - 1], i);
    }
  }

  /** The next id differs from every id ever logged, by whatever program and in whatever kind of record. */
  lemma NextIdIsFresh(lines: seq<Line>)
    ensures !Logged(lines, NextId(lines))
    ensures forall i :: 0 <= i < |lines| ==>
              && lines[i] != Tombstone(NextId(lines)) && lines[i] != Incomplete(NextId(lines))
              && (lines[i].Put? ==> lines[i].entry.id != NextId(lines))
  {
    FormatParses(Max(Numbers(lines)) + 1);
    assert forall i :: 0 <= i < |lines| && LineId(lines[i]) == Some(NextId(lines)) ==> Logged(lines, NextId(lines));
    if Logged(lines, NextId(lines)) {
      var i :| 0 <= i < |lines| && LineId(lines[i]) == Some(NextId(lines));
      NumberCollected(lines, i);
      assert false;
    }
  }

  lemma {:induction false} NumberComesFrom(lines: seq<Line>, n: int) returns (i: nat)
    requires n in Numbers(lines)
    ensures i < |lines| && LineId(lines[i]).Some? && IdNumber(LineId(lines[i]).value) == Some(n)
    decreases |lines|
  {
    var init := lines[..|lines| - 1];
    if n in Numbers(init) {
      i := NumberComesFrom(init, n);
    } else {
      i := |lines| - 1;
    }
  }

  /** Line `i` carries the id number `n`. */
  predicate Carries(lines: seq<Line>, i: nat, n: int) {
    i < |lines| && LineId(lines[i]).Some? && IdNumber(LineId(lines[i]).value) == Some(n)
  }

  /**
    The next id is "brain-" and a number of at least three digits: one more than the
    largest that any line carries, or one if none carries a number.
   */
  lemma NextIdIsNext(lines: seq<Line>) returns (n: int)
    ensures NextId(lines).text == "brain-" + Decimal.Print03(n) && IdNumber(NextId(lines)) == Some(n)
    ensures forall i: nat, m :: Carries(lines, i, m) ==> m < n
    ensures n == 1 || exists i: nat, m :: Carries(lines, i, m) && m == n - 1
    ensures 0 <= n < 1000 ==> |NextId(lines).text| == 9
  {
    n := Max(Numbers(lines)) + 1;
    FormatParses(n);
    Decimal.Print03Width(n);
    forall i: nat, m | Carries(lines, i, m)
      ensures m < n
    {
      NumberCollected(lines, i);
    }
    if Numbers(lines) != [] {
      var i := NumberComesFrom(lines, n - 1);
      assert Carries(lines, i, n - 1);
    }
  }

  lemma {:induction false} OrderIsLogged(lines: seq<Line>)
    ensures forall k :: k in Replay(lines).order ==> Logged(lines, k)
    decreases |lines|
  {
    if lines != [] {
      var init := lines[..|lines| - 1];
      OrderIsLogged(init);
      forall k | k in Replay(lines).order
        ensures Logged(lines, k)
      {
        if k in Replay(init).order {
          var i :| 0 <= i < |init| && LineId(init[i]) == Some(k);
          assert LineId(lines[i]) == Some(k);
        } else {
          assert LineId(lines[|lines| - 1]) == Some(k);
        }
      }
    }
  }

  lemma LoggedStays(lines: seq<Line>, more: seq<Line>, id: EntryId)
    requires Logged(lines, id)
    ensures Logged(lines + more, id)
  {
    var i :| 0 <= i < |lines| && LineId(lines[i]) == Some(id);
    assert LineId((lines + more)[i]) == Some(id);
  }

  // ---------------------------------------------------------------------------
  // Operations
  // ---------------------------------------------------------------------------

  predicate Upgradable(e: Entry, vectors: map<EntryId, seq<real>>) {
    e.embedding == [] && e.id in vectors
  }

  /**
    The lines that an embedding upgrade appends for these entries; an id without a
    vector is one whose request failed.
   */
  function UpgradeLines(es: seq<Entry>, vectors: map<EntryId, seq<real>>): seq<Line> {
    if es == [] then []
    else
      var e := es[|es| - 1];
      UpgradeLines(es[..|es| - 1], vectors) +
      if Upgradable(e, vectors) then [Tombstone(e.id), Put(Upgrade(e, vectors))] else []
  }

  class KnowledgeLog {
    var lines: seq<Line>

    constructor (lines: seq<Line>)
      ensures this.lines == lines
    {
      this.lines := lines;
    }

    method BrainPut(draft: Entry) returns (entry: Entry)
      modifies this
      ensures entry == draft.(id := NextId(old(lines)), embedding := [])
      ensures lines == old(lines) + [Put(entry)]
      ensures Load(lines) == old(Load(lines)) + [entry] && !Logged(old(lines), entry.id)
    {
      var id := ComputeNextId(lines);
      entry := draft.(id := id, embedding := []);
      NextIdIsFresh(lines);
      OrderIsLogged(lines);
      LoadPut(lines, entry);
      lines := lines + [Put(entry)];
    }

    method BrainPrune(id: EntryId) returns (found: bool)
      modifies this
      ensures found <==> HasId(old(Load(lines)), id)
      ensures lines == old(lines) + if found then [Tombstone(id)] else []
      ensures Load(lines) == if found then Without(old(Load(lines)), id) else old(Load(lines))
    {
      var entries := LoadEntries(lines);
      found := exists i :: 0 <= i < |entries| && entries[i].id == id;
      if found {
        LoadTombstone(lines, id);
        lines := lines + [Tombstone(id)];
      } else {
        assert lines + [] == lines;
      }
    }

    method BrainUpgradeEmbeddings(vectors: map<EntryId, seq<real>>) returns (upgraded: nat, skipped: nat)
      modifies this
      ensures lines == old(lines) + UpgradeLines(old(Load(lines)), vectors)
      ensures Load(lines) == UpgradeAll(old(Load(lines)), vectors)
      ensures |Load(lines)| == |old(Load(lines))|
      ensures forall i :: 0 <= i < |old(Load(lines))| ==>
                var was := old(Load(lines))[i];
                Load(lines)[i] == if was.embedding == [] && was.id in vectors then was.(embedding := vectors[was.id])
                                  else was
      ensures upgraded + skipped == |old(Load(lines))|
      ensures |lines| == |old(lines)| + 2 * upgraded
    {
      var entries := LoadEntries(lines);
      upgraded, skipped := 0, 0;
      for i := 0 to |entries|
        invariant lines == old(lines) + UpgradeLines(entries[..i], vectors)
        invariant upgraded + skipped == i && |lines| == |old(lines)| + 2 * upgraded
      {
        var entry := entries[i];
        assert entries[..i + 1][..i] == entries[..i];
        if entry.embedding != [] {
          skipped := skipped + 1;
        } else if entry.id !in vectors {
          skipped := skipped + 1;
        } else {
          lines := lines + [Tombstone(entry.id)];
          lines := lines + [Put(entry.(embedding := vectors[entry.id]))];
          upgraded := upgraded + 1;
        }
      }
      assert entries[..|entries|] == entries;
      UpgradeLoadsAll(old(lines), vectors);
    }

    method BrainExport() returns (bundle: seq<Line>, count: nat)
      ensures Load(bundle) == Load(lines) && count == |Load(lines)|
    {
      var entries := LoadEntries(lines);
      bundle := [];
      for i := 0 to |entries|
        invariant bundle == Exported(entries[..i])
      {
        assert entries[..i + 1][..i] == entries[..i];
        bundle := bundle + [Put(entries[i])];
      }
      assert entries[..|entries|] == entries;
      count := |entries|;
      ExportLoads(lines);
    }
  }

  function Exported(es: seq<Entry>): seq<Line> {
    if es == [] then [] else Exported(es[..|es| - 1]) + [Put(es[|es| - 1])]
  }

  /** Loading a list of records with distinct ids gives the list back. */
  lemma {:induction false} LoadExported(es: seq<Entry>)
    requires forall i, j :: 0 <= i < j < |es| ==> es[i].id != es[j].id
    ensures Load(Exported(es)) == es
    ensures forall k :: k in Replay(Exported(es)).order ==> exists i :: 0 <= i < |es| && es[i].id == k
    decreases |es|
  {
    if es != [] {
      var init, e := es[..|es| - 1], es[|es| - 1];
      LoadExported(init);
      ReplayAppend(Exported(init), Put(e));
      LoadPut(Exported(init), e);
      forall k | k in Replay(Exported(es)).order
        ensures exists i :: 0 <= i < |es| && es[i].id == k
      {
        if k != e.id {
          var i :| 0 <= i < |init| && init[i].id == k;
          assert es[i].id == k;
        }
      }
    }
  }

  /** Loading an export yields the same list. */
  lemma ExportLoads(lines: seq<Line>)
    ensures Load(Exported(Load(lines))) == Load(lines)
  {
    LoadDistinct(lines);
    LoadExported(Load(lines));
  }

  /** The list in which the first `n` entries have been upgraded. */
  function PartlyUpgraded(es: seq<Entry>, n: nat, vectors: map<EntryId, seq<real>>): (r: seq<Entry>)
    requires n <= |es|
    ensures |r| == |es| && forall i :: 0 <= i < |es| ==> r[i] == if i < n then Upgrade(es[i], vectors) else es[i]
  {
    UpgradeAll(es[..n], vectors) + es[n..]
  }

  lemma UpgradeNext(es: seq<Entry>, n: nat, vectors: map<EntryId, seq<real>>)
    requires n < |es| && forall i, j :: 0 <= i < j < |es| ==> es[i].id != es[j].id
    ensures Replace(PartlyUpgraded(es, n, vectors), Upgrade(es[n], vectors)) == PartlyUpgraded(es, n + 1, vectors)
    ensures Upgrade(es[n], vectors) == es[n] ==> PartlyUpgraded(es, n, vectors) == PartlyUpgraded(es, n + 1, vectors)
    ensures HasId(PartlyUpgraded(es, n, vectors), es[n].id)
  {
    assert PartlyUpgraded(es, n, vectors)[n].id == es[n].id;
  }

  /** After the first `n` entries have been handled, they are upgraded in place and the rest are as they were. */
  lemma {:induction false} UpgradeLoads(lines: seq<Line>, n: nat, vectors: map<EntryId, seq<real>>)
    requires n <= |Load(lines)|
    ensures Load(lines + UpgradeLines(Load(lines)[..n], vectors)) == PartlyUpgraded(Load(lines), n, vectors)
    decreases n
  {
    var es := Load(lines);
    if n == 0 {
      assert lines + UpgradeLines(es[..0], vectors) == lines;
      assert PartlyUpgraded(es, 0, vectors) == es;
    } else {
      UpgradeLoads(lines, n - 1, vectors);
      LoadDistinct(lines);
      UpgradeNext(es, n - 1, vectors);
      var e := es[n - 1];
      var before := lines + UpgradeLines(es[..n - 1], vectors);
      assert es[..n][..n - 1] == es[..n - 1];
      if e.embedding == [] && e.id in vectors {
        LoadRewrite(before, Upgrade(e, vectors));
        Associate(lines, UpgradeLines(es[..n - 1], vectors), [Tombstone(e.id), Put(Upgrade(e, vectors))]);
      } else {
        Associate(lines, UpgradeLines(es[..n - 1], vectors), []);
        assert before + [] == before;
      }
    }
  }

  /** An upgrade changes embeddings only, and keeps every entry in its place. */
  lemma UpgradeLoadsAll(lines: seq<Line>, vectors: map<EntryId, seq<real>>)
    ensures Load(lines + UpgradeLines(Load(lines), vectors)) == UpgradeAll(Load(lines), vectors)
  {
    var es := Load(lines);
    UpgradeLoads(lines, |es|, vectors);
    assert es[..|es|] == es;
    assert PartlyUpgraded(es, |es|, vectors) == UpgradeAll(es, vectors);
  }

  // ---------------------------------------------------------------------------
  // Whole runs against the ordered map
  // ---------------------------------------------------------------------------

  datatype Op = PutOp(draft: Entry) | PruneOp(id: EntryId) | UpgradeOp(vectors: map<EntryId, seq<real>>)

  /** What an operation appends to the log. */
  function Append(lines: seq<Line>, op: Op): seq<Line> {
    match op
    case PutOp(draft) => lines + [Put(draft.(id := NextId(lines), embedding := []))]
    case PruneOp(id) => if id in Replay(lines).live then lines + [Tombstone(id)] else lines
    case UpgradeOp(vectors) => lines + UpgradeLines(Load(lines), vectors)
  }

  /** The same operation on a plain list of entries, with the id that a put is given. */
  function OnMap(es: seq<Entry>, op: Op, newId: EntryId): seq<Entry> {
    match op
    case PutOp(draft) => es + [draft.(id := newId, embedding := [])]
    case PruneOp(id) => Without(es, id)
    case UpgradeOp(vectors) => UpgradeAll(es, vectors)
  }

  function LogAfter(lines: seq<Line>, ops: seq<Op>): seq<Line> {
    if ops == [] then lines else Append(LogAfter(lines, ops[..|ops| - 1]), ops[|ops| - 1])
  }

  /** The id that the log would give to a put after the first `n` operations. */
  function IdAt(lines: seq<Line>, ops: seq<Op>, n: nat): EntryId
    requires n <= |ops|
  {
    NextId(LogAfter(lines, ops[..n]))
  }

  function MapAfter(lines: seq<Line>, ops: seq<Op>): seq<Entry> {
    if ops == [] then Load(lines)
    else OnMap(MapAfter(lines, ops[..|ops| - 1]), ops[|ops| - 1], IdAt(lines, ops, |ops| - 1))
  }

  lemma {:induction false} WithoutAbsent(es: seq<Entry>, id: EntryId)
    requires !HasId(es, id)
    ensures Without(es, id) == es
    decreases |es|
  {
    if es != [] {
      var init := es[..|es| - 1];
      forall i | 0 <= i < |init|
        ensures init[i].id != id
      {
        assert es[i].id != id;
      }
      WithoutAbsent(init, id);
      assert es[|es| - 1].id != id;
    }
  }

  lemma AppendRefines(lines: seq<Line>, op: Op)
    ensures Load(Append(lines, op)) == OnMap(Load(lines), op, NextId(lines))
  {
    match op
    case PutOp(draft) =>
      NextIdIsFresh(lines);
      OrderIsLogged(lines);
      LoadPut(lines, draft.(id := NextId(lines), embedding := []));
    case PruneOp(id) =>
      LoadTombstone(lines, id);
      ReplayWellLoaded(lines);
      LiveHas(Replay(lines).order, Replay(lines).live, id);
      if id !in Replay(lines).live {
        WithoutAbsent(Load(lines), id);
      }
    case UpgradeOp(vectors) =>
      UpgradeLoadsAll(lines, vectors);
  }

  /** After any sequence of operations, from any log, loading gives the ordered map. */
  lemma {:induction false} RunRefines(lines: seq<Line>, ops: seq<Op>)
    ensures Load(LogAfter(lines, ops)) == MapAfter(lines, ops)
    decreases |ops|
  {
    if ops != [] {
      var init := ops[..|ops| - 1];
      RunRefines(lines, init);
      AppendRefines(LogAfter(lines, init), ops[|ops| - 1]);
    }
  }

  lemma AppendLogs(lines: seq<Line>, op: Op, id: EntryId)
    requires Logged(lines, id)
    ensures Logged(Append(lines, op), id)
  {
    match op
    case PutOp(draft) => LoggedStays(lines, [Put(draft.(id := NextId(lines), embedding := []))], id);
    case PruneOp(other) => LoggedStays(lines, [Tombstone(other)], id);
    case UpgradeOp(vectors) => LoggedStays(lines, UpgradeLines(Load(lines), vectors), id);
  }

  lemma {:induction false} LoggedForever(lines: seq<Line>, ops: seq<Op>, m: nat, id: EntryId)
    requires m <= |ops| && Logged(LogAfter(lines, ops[..m]), id)
    ensures Logged(LogAfter(lines, ops), id)
    decreases |ops|
  {
    if m == |ops| {
      assert ops[..m] == ops;
    } else {
      var init := ops[..|ops| - 1];
      assert init[..m] == ops[..m];
      LoggedForever(lines, init, m, id);
      AppendLogs(LogAfter(lines, init), ops[|ops| - 1], id);
    }
  }

  /**
    The ids given to puts never repeat, not even after the entry has been pruned,
    nor any id in the log at the start.
   */
  lemma PutIdsNeverRepeat(lines: seq<Line>, ops: seq<Op>, m: nat, n: nat)
    requires m < n <= |ops| && ops[m].PutOp?
    ensures IdAt(lines, ops, m) != IdAt(lines, ops, n)
    ensures !Logged(lines, IdAt(lines, ops, n))
  {
    var before := LogAfter(lines, ops[..m]);
    var after := LogAfter(lines, ops[..n]);
    assert ops[..m + 1][..m] == ops[..m];
    var put := LogAfter(lines, ops[..m + 1]);
    assert LineId(put[|put| - 1]) == Some(IdAt(lines, ops, m));
    assert ops[..n][..m + 1] == ops[..m + 1];
    LoggedForever(lines, ops[..n], m + 1, IdAt(lines, ops, m));
    NextIdIsFresh(after);
    assert ops[..n][..0] == [];
    if Logged(lines, IdAt(lines, ops, n)) {
      LoggedForever(lines, ops[..n], 0, IdAt(lines, ops, n));
    }
  }

  /**
    Where an upgrade has got to after appending `n` lines: `k` entries are dealt
    with, and when `n` is odd the tombstone of the next one has been appended too.
   */
  ghost predicate StoppedAt(es: seq<Entry>, vectors: map<EntryId, seq<real>>, n: nat, k: nat) {
    && n <= |UpgradeLines(es, vectors)|
    && k <= |es|
    && (if n % 2 == 0 then UpgradeLines(es, vectors)[..n] == UpgradeLines(es[..k], vectors)
        else
          && k < |es| && Upgradable(es[k], vectors)
          && UpgradeLines(es, vectors)[..n] == UpgradeLines(es[..k], vectors) + [Tombstone(es[k].id)])
  }

  lemma StoppedEarlier(es: seq<Entry>, vectors: map<EntryId, seq<real>>, n: nat, k: nat)
    requires es != [] && StoppedAt(es[..|es| - 1], vectors, n, k)
    ensures StoppedAt(es, vectors, n, k)
  {
    var init, all := es[..|es| - 1], UpgradeLines(es, vectors);
    assert all[..n] == UpgradeLines(init, vectors)[..n];
    assert es[..k] == init[..k];
  }

  lemma StoppedInLast(es: seq<Entry>, vectors: map<EntryId, seq<real>>, n: nat)
    requires es != [] && |UpgradeLines(es[..|es| - 1], vectors)| < n <= |UpgradeLines(es, vectors)|
    requires |UpgradeLines(es[..|es| - 1], vectors)| % 2 == 0
    ensures StoppedAt(es, vectors, n, if n % 2 == 0 then |es| else |es| - 1)
  {
    var all := UpgradeLines(es, vectors);
    if n % 2 == 0 {
      assert all[..n] == all && es[..|es|] == es;
    } else {
      assert all[..n] == UpgradeLines(es[..|es| - 1], vectors) + [Tombstone(es[|es| - 1].id)];
    }
  }

  lemma {:induction false} LinesArePaired(es: seq<Entry>, vectors: map<EntryId, seq<real>>)
    ensures |UpgradeLines(es, vectors)| % 2 == 0
  {
    if es != [] {
      LinesArePaired(es[..|es| - 1], vectors);
    }
  }

  lemma {:induction false} CrashPoint(es: seq<Entry>, vectors: map<EntryId, seq<real>>, n: nat) returns (k: nat)
    requires n <= |UpgradeLines(es, vectors)|
    ensures StoppedAt(es, vectors, n, k)
    decreases |es|
  {
    if es == [] {
      k := 0;
    } else if n <= |UpgradeLines(es[..|es| - 1], vectors)| {
      k := CrashPoint(es[..|es| - 1], vectors, n);
      StoppedEarlier(es, vectors, n, k);
    } else {
      LinesArePaired(es[..|es| - 1], vectors);
      StoppedInLast(es, vectors, n);
      k := if n % 2 == 0 then |es| else |es| - 1;
    }
  }

  lemma {:induction false} WithoutKeeps(es: seq<Entry>, id: EntryId, other: EntryId)
    ensures HasId(Without(es, id), other) <==> HasId(es, other) && other != id
    decreases |es|
  {
    if es != [] {
      var init, last := es[..|es| - 1], es[|es| - 1];
      WithoutKeeps(init, id, other);
      assert es == init + [last];
      HasIdAppend(init, [last], other);
      HasIdAppend(Without(init, id), if last.id == id then [] else [last], other);
      assert HasId([last], other) <==> [last][0].id == other;
    }
  }

  lemma HasIdAppend(a: seq<Entry>, b: seq<Entry>, id: EntryId)
    ensures HasId(a + b, id) <==> HasId(a, id) || HasId(b, id)
  {
    if i :| 0 <= i < |a| && a[i].id == id {
      assert (a + b)[i].id == id;
    }
    if i :| 0 <= i < |b| && b[i].id == id {
      assert (a + b)[|a| + i].id == id;
    }
  }

  lemma PartlyUpgradedIds(es: seq<Entry>, k: nat, vectors: map<EntryId, seq<real>>, id: EntryId)
    requires k <= |es|
    ensures HasId(PartlyUpgraded(es, k, vectors), id) <==> HasId(es, id)
  {
    var p := PartlyUpgraded(es, k, vectors);
    if i :| 0 <= i < |es| && es[i].id == id {
      assert p[i].id == id;
    }
  }

  /** What an upgrade that stops after `n` appended lines loses: nothing, or exactly the entry of its last tombstone. */
  lemma InterruptedUpgrade(lines: seq<Line>, vectors: map<EntryId, seq<real>>, n: nat, id: EntryId)
    requires n <= |UpgradeLines(Load(lines), vectors)| && HasId(Load(lines), id)
    ensures var appended := UpgradeLines(Load(lines), vectors)[..n];
            HasId(Load(lines + appended), id) <==> n % 2 == 0 || appended[n - 1] != Tombstone(id)
    ensures n % 2 == 1 ==>
              var last := UpgradeLines(Load(lines), vectors)[n - 1];
              last.Tombstone? && HasId(Load(lines), last.id)
  {
    var es := Load(lines);
    var k := CrashPoint(es, vectors, n);
    UpgradeLoads(lines, k, vectors);
    PartlyUpgradedIds(es, k, vectors, id);
    if n % 2 == 1 {
      var before := lines + UpgradeLines(es[..k], vectors);
      Associate(lines, UpgradeLines(es[..k], vectors), [Tombstone(es[k].id)]);
      LoadTombstone(before, es[k].id);
      WithoutKeeps(Load(before), es[k].id, id);
      assert es[k].id == UpgradeLines(es, vectors)[..n][n - 1].id;
    }
  }

  /** An interrupted upgrade loses no entry if and only if it stopped between two entries. */
  lemma InterruptedUpgradeKeepsAll(lines: seq<Line>, vectors: map<EntryId, seq<real>>, n: nat)
    requires n <= |UpgradeLines(Load(lines), vectors)|
    ensures (forall id :: HasId(Load(lines), id) ==> HasId(Load(lines + UpgradeLines(Load(lines), vectors)[..n]), id))
       <==> n % 2 == 0
  {
    var es := Load(lines);
    forall id | HasId(es, id) && n % 2 == 0
      ensures HasId(Load(lines + UpgradeLines(es, vectors)[..n]), id)
    {
      InterruptedUpgrade(lines, vectors, n, id);
    }
    if n % 2 == 1 {
      var k := CrashPoint(es, vectors, n);
      assert UpgradeLines(es, vectors)[..n][n - 1] == Tombstone(es[k].id);
      InterruptedUpgrade(lines, vectors, n, es[k].id);
    }
  }
}
