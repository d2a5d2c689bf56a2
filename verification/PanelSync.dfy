/**
  `synchronize`: stage every copy, replace every target, verify, and on any
  failure put the originals back.  A file operation may fail wherever the script
  may see an exception, except that removing a temporary is taken to succeed.
 */
module PanelSync {
  import opened Wrappers
  import opened Collections

  /** Temporaries get names of their own, which no named file has. */
  datatype Path = Named(name: string) | Temporary(serial: nat)

  type Bytes = seq<int>
  type Files = map<Path, Bytes>

  /** `files`, with every path of `changed` holding `content`. */
  function Installed(files: Files, changed: set<Path>, content: Bytes): Files {
    map p | p in files.Keys + changed :: if p in changed then content else files[p]
  }

  /** Which of the operations, counted from the start, raise. */
  type Faults = nat -> bool

  class FileSystem {
    const faults: Faults
    var files: Files
    var serial: nat
    var step: nat

    /** Temporary names are handed out in order. */
    predicate Valid()
      reads this
    {
      forall p :: p in files && p.Temporary? ==> p.serial < serial
    }

    constructor (faults: Faults, files: Files)
      requires forall p :: p in files ==> p.Named?
      ensures Valid() && this.faults == faults && this.files == files && step == 0
    {
      this.faults, this.files, serial, step := faults, files, 0, 0;
    }

    ghost predicate NoFaults(start: nat, end: nat) {
      forall n :: start <= n < end ==> !faults(n)
    }

    ghost predicate TwoFaults(start: nat, end: nat) {
      exists m, n :: start <= m < n < end && faults(m) && faults(n)
    }

    /** The next operation that can raise. */
    method Attempt() returns (ok: bool)
      modifies this`step
      ensures step == old(step) + 1 && ok == !faults(old(step))
    {
      ok := !faults(step);
      step := step + 1;
    }

    /** `_stage_bytes`: a new temporary with exactly these bytes, or no trace of one. */
    method StageBytes(payload: Bytes) returns (temporary: Option<Path>)
      requires Valid()
      modifies this
      ensures Valid() && serial >= old(serial) && step >= old(step)
      ensures temporary.Some? <==> NoFaults(old(step), step)
      ensures step <= old(step) + 3 && (temporary.Some? ==> step == old(step) + 3)
      ensures match temporary
              case None => files == old(files)
              case Some(t) => t == Temporary(old(serial)) && files == old(files)[t := payload]
    {
      var created := Attempt();
      if !created {
        return None;
      }
      var t := Temporary(serial);
      serial := serial + 1;
      var complete := Attempt();
      var written := payload;
      if !complete {
        assert payload + [0] != payload;
        written :| written != payload;
      }
      files := files[t := written];
      var readable := Attempt();
      if !readable || files[t] != payload {
        files := files - {t};
        return None;
      }
      return Some(t);
    }

    /** `os.replace` */
    method Replace(temporary: Path, target: Path) returns (ok: bool)
      requires Valid() && temporary in files && target.Named?
      modifies this`files, this`step
      ensures Valid() && step == old(step) + 1 && ok == !faults(old(step))
      ensures files == if ok then (old(files) - {temporary})[target := old(files[temporary])] else old(files)
    {
      ok := Attempt();
      if ok {
        var content := files[temporary];
        files := (files - {temporary})[target := content];
      }
    }

    /** `Path.unlink(missing_ok=True)` of a target */
    method Unlink(target: Path) returns (ok: bool)
      requires Valid()
      modifies this`files, this`step
      ensures Valid() && step == old(step) + 1 && ok == !faults(old(step))
      ensures files == if ok then old(files) - {target} else old(files)
    {
      ok := Attempt();
      if ok {
        files := files - {target};
      }
    }

    /** `Path.unlink(missing_ok=True)` of a temporary */
    method RemoveTemporary(t: Path)
      requires Valid()
      modifies this`files
      ensures Valid() && files == old(files) - {t}
    {
      files := files - {t};
    }
  }

  /** A path that existed, or could have, before temporaries from `serial0` on were handed out. */
  predicate Old(p: Path, serial0: nat) {
    p.Named? || p.serial < serial0
  }

  /**
    The old paths are as they were except that `changed` hold the canonical bytes;
    any new file is one of `temporaries`.
   */
  ghost predicate Disk(files: Files, original: Files, serial0: nat, changed: set<Path>, canonical: Bytes,
                       temporaries: set<Path>) {
    && (forall p :: Old(p, serial0) ==>
          Lookup(files, p) == if p in changed then Some(canonical) else Lookup(original, p))
    && (forall p :: p in files && !Old(p, serial0) ==> p in temporaries)
    && (forall p :: p in temporaries ==> !Old(p, serial0))
  }

  predicate AllNamed(ps: seq<Path>) {
    forall i :: 0 <= i < |ps| ==> ps[i].Named?
  }

  /** From `i` on the staged temporaries are there, each with the canonical bytes. */
  ghost predicate Ready(files: Files, staged: seq<Path>, i: nat, canonical: Bytes) {
    forall j :: i <= j < |staged| ==> staged[j] in files && files[staged[j]] == canonical
  }

  /** Copies for the first `i` targets have been staged, and their originals recorded. */
  ghost predicate Staging(files: Files, original: Files, serial0: nat, targets: seq<Path>, i: nat, staged: seq<Path>,
                          originals: seq<Option<Bytes>>, canonical: Bytes) {
    && |staged| == |originals| == i <= |targets|
    && Disk(files, original, serial0, {}, canonical, Elements(staged))
    && Distinct(staged) && Ready(files, staged, 0, canonical)
    && forall j :: 0 <= j < i ==> originals[j] == Lookup(original, targets[j])
  }

  lemma StagedOne(files: Files, original: Files, serial0: nat, targets: seq<Path>, i: nat, staged: seq<Path>,
                  originals: seq<Option<Bytes>>, canonical: Bytes, t: Path)
    requires Staging(files, original, serial0, targets, i, staged, originals, canonical)
    requires i < |targets| && AllNamed(targets) && t.Temporary? && t.serial >= serial0 && t !in files
    ensures Lookup(files, targets[i]) == Lookup(original, targets[i])
    ensures Staging(files[t := canonical], original, serial0, targets, i + 1, staged + [t],
                    originals + [Lookup(files, targets[i])], canonical)
  {
    assert Elements(staged + [t]) == Elements(staged) + {t};
    assert Old(targets[i], serial0);
  }

  /** The first loop: record the original and stage a copy for every target. */
  method StageAll(fs: FileSystem, targets: seq<Path>, canonical: Bytes)
    returns (ok: bool, staged: seq<Path>, originals: seq<Option<Bytes>>)
    requires fs.Valid() && AllNamed(targets)
    modifies fs
    ensures fs.Valid() && fs.serial >= old(fs.serial) && fs.step >= old(fs.step)
    ensures ok <==> fs.NoFaults(old(fs.step), fs.step)
    ensures fs.step <= old(fs.step) + 4 * |targets| && (ok ==> fs.step == old(fs.step) + 4 * |targets|)
    ensures Disk(fs.files, old(fs.files), old(fs.serial), {}, canonical, Elements(staged))
    ensures Distinct(staged) && Ready(fs.files, staged, 0, canonical)
    ensures |staged| <= |originals| <= |targets| && (ok ==> |staged| == |targets|)
    ensures forall j :: 0 <= j < |originals| ==> originals[j] == Lookup(old(fs.files), targets[j])
  {
    staged, originals := [], [];
    ghost var original, serial0 := fs.files, fs.serial;
    for i := 0 to |targets|
      invariant fs.Valid() && fs.serial >= serial0
      invariant fs.step == old(fs.step) + 4 * i && fs.NoFaults(old(fs.step), fs.step)
      invariant Staging(fs.files, original, serial0, targets, i, staged, originals, canonical)
    {
      var readable := fs.Attempt();   // parent created, target regular, original read
      if !readable {
        return false, staged, originals;
      }
      ghost var before := fs.files;
      StagedOne(before, original, serial0, targets, i, staged, originals, canonical, Temporary(fs.serial));
      originals := originals + [Lookup(fs.files, targets[i])];
      var temporary := fs.StageBytes(canonical);
      if temporary.None? {
        return false, staged, originals;
      }
      staged := staged + [temporary.value];
    }
    ok := true;
  }

  /** The first `i` copies have been put in place. */
  ghost predicate Replacing(files: Files, original: Files, serial0: nat, targets: seq<Path>, i: nat, staged: seq<Path>,
                            canonical: Bytes) {
    && i <= |targets| == |staged|
    && Disk(files, original, serial0, Elements(targets[..i]), canonical, Elements(staged))
    && Distinct(staged) && Ready(files, staged, i, canonical)
  }

  lemma ReplacedOne(files: Files, original: Files, serial0: nat, targets: seq<Path>, i: nat, staged: seq<Path>,
                    canonical: Bytes)
    requires Replacing(files, original, serial0, targets, i, staged, canonical)
    requires i < |targets| && AllNamed(targets)
    ensures staged[i] in files && files[staged[i]] == canonical
    ensures Replacing((files - {staged[i]})[targets[i] := canonical], original, serial0, targets, i + 1,
                      staged, canonical)
  {
    assert targets[..i + 1] == targets[..i] + [targets[i]];
    assert Elements(targets[..i + 1]) == Elements(targets[..i]) + {targets[i]};
    assert forall j :: i <= j < |staged| ==> staged[j] in Elements(staged);
  }

  /** The second loop: put the staged copies in place. */
  method ReplaceAll(fs: FileSystem, targets: seq<Path>, staged: seq<Path>, canonical: Bytes, ghost original: Files,
                    ghost serial0: nat)
    returns (ok: bool, applied: nat)
    requires fs.Valid() && AllNamed(targets) && Replacing(fs.files, original, serial0, targets, 0, staged, canonical)
    modifies fs`files, fs`step
    ensures fs.Valid() && applied <= |targets| && (ok ==> applied == |targets|)
    ensures fs.step >= old(fs.step) && (ok <==> fs.NoFaults(old(fs.step), fs.step))
    ensures fs.step <= old(fs.step) + 2 * |targets| && (ok ==> fs.step == old(fs.step) + 2 * |targets|)
    ensures Replacing(fs.files, original, serial0, targets, applied, staged, canonical)
  {
    applied := 0;
    for i := 0 to |targets|
      invariant fs.Valid() && applied == i
      invariant fs.step == old(fs.step) + 2 * i && fs.NoFaults(old(fs.step), fs.step)
      invariant Replacing(fs.files, original, serial0, targets, i, staged, canonical)
    {
      var regular := fs.Attempt();
      if !regular {
        return false, applied;
      }
      ReplacedOne(fs.files, original, serial0, targets, i, staged, canonical);
      var replaced := fs.Replace(staged[i], targets[i]);
      if !replaced {
        return false, applied;
      }
      applied := applied + 1;
    }
    ok := true;
  }

  predicate AllHold(files: Files, targets: seq<Path>, content: Bytes) {
    forall i :: 0 <= i < |targets| ==> Lookup(files, targets[i]) == Some(content)
  }

  /** The third loop: read every target back and compare. */
  method VerifyAll(fs: FileSystem, targets: seq<Path>, canonical: Bytes) returns (ok: bool)
    modifies fs`step
    ensures old(fs.step) <= fs.step <= old(fs.step) + |targets| && (ok ==> fs.step == old(fs.step) + |targets|)
    ensures ok <==> fs.NoFaults(old(fs.step), fs.step) && AllHold(fs.files, targets, canonical)
  {
    for i := 0 to |targets|
      invariant fs.step == old(fs.step) + i && fs.NoFaults(old(fs.step), fs.step)
      invariant AllHold(fs.files, targets[..i], canonical)
    {
      assert targets[..i + 1] == targets[..i] + [targets[i]];
      var readable := fs.Attempt();
      if !readable || Lookup(fs.files, targets[i]) != Some(canonical) {
        return false;
      }
    }
    assert targets[..|targets|] == targets;
    ok := true;
  }

  /** Put one target back as it was. */
  method Restore(fs: FileSystem, target: Path, was: Option<Bytes>) returns (ok: bool)
    requires fs.Valid() && target.Named?
    modifies fs
    ensures fs.Valid() && fs.serial >= old(fs.serial)
    ensures fs.step >= old(fs.step) && (ok <==> fs.NoFaults(old(fs.step), fs.step))
    ensures forall p :: p != target ==> Lookup(fs.files, p) == Lookup(old(fs.files), p)
    ensures Lookup(fs.files, target) == if ok then was else Lookup(old(fs.files), target)
  {
    match was {
      case None =>
        ok := fs.Unlink(target);
      case Some(content) =>
        var rollback := fs.StageBytes(content);
        if rollback.None? {
          return false;
        }
        assert rollback.value !in old(fs.files);
        ok := fs.Replace(rollback.value, target);
        fs.RemoveTemporary(rollback.value);
    }
  }

  /** The exception handler: restore the replaced targets, last first, and list those that could not be. */
  method RollBack(fs: FileSystem, targets: seq<Path>, applied: nat, originals: seq<Option<Bytes>>, canonical: Bytes,
                  ghost original: Files, ghost serial0: nat, ghost temporaries: set<Path>)
    returns (unrestored: set<Path>)
    requires fs.Valid() && AllNamed(targets) && Distinct(targets) && applied <= |targets| && applied <= |originals|
    requires forall j :: 0 <= j < applied ==> originals[j] == Lookup(original, targets[j])
    requires Disk(fs.files, original, serial0, Elements(targets[..applied]), canonical, temporaries)
    modifies fs
    ensures fs.Valid()
    ensures fs.step >= old(fs.step) && (unrestored == {} <==> fs.NoFaults(old(fs.step), fs.step))
    ensures unrestored <= Elements(targets[..applied])
    ensures Disk(fs.files, original, serial0, unrestored, canonical, temporaries)
  {
    unrestored := {};
    var i := applied;
    assert targets[..applied] == targets[0..applied];
    while i > 0
      invariant 0 <= i <= applied && fs.Valid()
      invariant fs.step >= old(fs.step) && (unrestored == {} <==> fs.NoFaults(old(fs.step), fs.step))
      invariant RollingBack(fs.files, original, serial0, targets, i, applied, unrestored, canonical, temporaries)
    {
      i := i - 1;
      ghost var before := fs.files;
      var restored := Restore(fs, targets[i], originals[i]);
      RolledBackOne(before, fs.files, original, serial0, targets, i, applied, unrestored, canonical,
                    temporaries, restored);
      if !restored {
        unrestored := unrestored + {targets[i]};
      }
    }
    assert Elements(targets[..0]) + unrestored == unrestored;
  }

  /** The targets from `i` on have been restored, except `unrestored`. */
  ghost predicate RollingBack(files: Files, original: Files, serial0: nat, targets: seq<Path>, i: nat, applied: nat,
                              unrestored: set<Path>, canonical: Bytes, temporaries: set<Path>) {
    && i <= applied <= |targets|
    && unrestored <= Elements(targets[i..applied])
    && Disk(files, original, serial0, Elements(targets[..i]) + unrestored, canonical, temporaries)
  }

  lemma RolledBackOne(before: Files, after: Files, original: Files, serial0: nat, targets: seq<Path>, i: nat,
                      applied: nat, unrestored: set<Path>, canonical: Bytes, temporaries: set<Path>, restored: bool)
    requires i < applied && AllNamed(targets) && Distinct(targets)
    requires RollingBack(before, original, serial0, targets, i + 1, applied, unrestored, canonical, temporaries)
    requires forall p :: p != targets[i] ==> Lookup(after, p) == Lookup(before, p)
    requires Lookup(after, targets[i]) == Lookup(if restored then original else before, targets[i])
    ensures RollingBack(after, original, serial0, targets, i, applied,
                        if restored then unrestored else unrestored + {targets[i]}, canonical, temporaries)
  {
    var target, kept := targets[i], Elements(targets[..i]) + unrestored;
    SplitTargets(targets, i, applied);
    assert Elements(targets[..i + 1]) + unrestored == kept + {target};
    RestoredOne(before, after, original, serial0, kept, target, canonical, temporaries, restored);
    assert Elements(targets[..i]) + (unrestored + {target}) == kept + {target};
  }

  lemma SplitTargets(targets: seq<Path>, i: nat, applied: nat)
    requires i < applied <= |targets| && Distinct(targets)
    ensures Elements(targets[..i + 1]) == Elements(targets[..i]) + {targets[i]}
    ensures Elements(targets[i..applied]) == {targets[i]} + Elements(targets[i + 1..applied])
    ensures targets[i] !in Elements(targets[..i]) && targets[i] !in Elements(targets[i + 1..applied])
  {
    assert targets[..i + 1] == targets[..i] + [targets[i]];
    assert targets[i..applied] == [targets[i]] + targets[i + 1..applied];
  }

  lemma RestoredOne(before: Files, after: Files, original: Files, serial0: nat, changed: set<Path>, target: Path,
                    canonical: Bytes, temporaries: set<Path>, restored: bool)
    requires Disk(before, original, serial0, changed + {target}, canonical, temporaries)
    requires target.Named? && target !in changed
    requires forall p :: p != target ==> Lookup(after, p) == Lookup(before, p)
    requires Lookup(after, target) == if restored then Lookup(original, target) else Lookup(before, target)
    ensures Disk(after, original, serial0, if restored then changed else changed + {target}, canonical, temporaries)
  {
    forall p | p in after && !Old(p, serial0)
      ensures p in temporaries
    {
      assert Lookup(after, p) == Lookup(before, p);
    }
  }

  /** The `finally` clause. */
  method RemoveStaged(fs: FileSystem, staged: seq<Path>, ghost original: Files, ghost serial0: nat,
                      ghost changed: set<Path>, ghost canonical: Bytes)
    requires fs.Valid() && Disk(fs.files, original, serial0, changed, canonical, Elements(staged))
    modifies fs`files
    ensures fs.Valid() && Disk(fs.files, original, serial0, changed, canonical, {})
  {
    for i := 0 to |staged|
      invariant fs.Valid() && Disk(fs.files, original, serial0, changed, canonical, Elements(staged[i..]))
    {
      assert staged[i..] == [staged[i]] + staged[i + 1..];
      assert staged[i] in Elements(staged[i..]);
      fs.RemoveTemporary(staged[i]);
    }
  }

  /** A disk without new files is the original with the changed paths installed. */
  lemma DiskIsInstalled(files: Files, original: Files, serial0: nat, changed: set<Path>, canonical: Bytes)
    requires Disk(files, original, serial0, changed, canonical, {})
    requires forall p :: p in original || p in changed ==> Old(p, serial0)
    ensures files == Installed(original, changed, canonical)
  {
    forall p | p in files
      ensures p in original.Keys + changed && files[p] == Installed(original, changed, canonical)[p]
    {
      assert Old(p, serial0);
      assert Lookup(files, p) == if p in changed then Some(canonical) else Lookup(original, p);
    }
    forall p | p in original.Keys + changed
      ensures p in files
    {
      assert Lookup(files, p) == if p in changed then Some(canonical) else Lookup(original, p);
    }
  }

  lemma DiskHolds(files: Files, original: Files, serial0: nat, targets: seq<Path>, canonical: Bytes,
                  temporaries: set<Path>)
    requires AllNamed(targets) && Disk(files, original, serial0, Elements(targets), canonical, temporaries)
    ensures AllHold(files, targets, canonical)
  {
    forall i | 0 <= i < |targets|
      ensures Lookup(files, targets[i]) == Some(canonical)
    {
      assert targets[i] in Elements(targets) && Old(targets[i], serial0);
    }
  }

  /**
    The write phase: all targets installed, or none but those listed as not
    restored, and no temporary left.  It succeeds exactly if its seven operations
    for each target do, and restores all the originals unless a second one fails.
   */
  method Install(fs: FileSystem, targets: seq<Path>, canonical: Bytes) returns (ok: bool, unrestored: set<Path>)
    requires fs.Valid() && AllNamed(targets) && Distinct(targets)
    modifies fs
    ensures fs.Valid() && unrestored <= Elements(targets)
    ensures fs.step >= old(fs.step) && (ok <==> fs.NoFaults(old(fs.step), fs.step))
    ensures ok <==> fs.NoFaults(old(fs.step), old(fs.step) + 7 * |targets|)
    ensures ok ==> fs.step == old(fs.step) + 7 * |targets|
    ensures unrestored != {} ==> fs.TwoFaults(old(fs.step), fs.step)
    ensures fs.files == Installed(old(fs.files), if ok then Elements(targets) else unrestored, canonical)
  {
    ghost var original, serial0 := fs.files, fs.serial;
    var staged, originals;
    var applied := 0;
    unrestored := {};
    ghost var changed: set<Path> := {};
    ok, staged, originals := StageAll(fs, targets, canonical);
    assert targets[..0] == [] && Elements(targets[..0]) == {};
    if ok {
      ok, applied := ReplaceAll(fs, targets, staged, canonical, original, serial0);
      if ok {
        assert targets[..|targets|] == targets;
        DiskHolds(fs.files, original, serial0, targets, canonical, Elements(staged));
        ok := VerifyAll(fs, targets, canonical);
      }
    }
    assert targets[..|targets|] == targets;
    assert targets[..0] == [];
    if !ok {
      ghost var failed: nat :| old(fs.step) <= failed < fs.step && fs.faults(failed);
      unrestored := RollBack(fs, targets, applied, originals, canonical, original, serial0, Elements(staged));
      changed := unrestored;
    } else {
      changed := Elements(targets);
    }
    RemoveStaged(fs, staged, original, serial0, changed, canonical);
    DiskIsInstalled(fs.files, original, serial0, changed, canonical);
  }

  // ---------------------------------------------------------------------------
  // The whole call
  // ---------------------------------------------------------------------------

  /** What a call can raise. */
  datatype Failure =
    | CanonicalMissing
    | DuplicateTarget(path: Path)
    | CanonicalIsTarget
    | Irregular                                 // a target that is not a regular file, before anything is written
    | InstallFailed(unrestored: set<Path>)      // with the targets listed as rollback errors
    | ReportFailed                              // reading back for the report, after a successful install

  datatype Status = Match | Drift | Missing

  datatype Row = Row(path: Path, status: Status)

  datatype Outcome = Report(allMatch: bool, rows: seq<Row>) | Raised(failure: Failure)

  function StatusOf(files: Files, target: Path, canonical: Bytes): Status {
    match Lookup(files, target)
    case None => Missing
    case Some(content) => if content == canonical then Match else Drift
  }

  /** Raised before anything is written, on account of the list of targets. */
  predicate Refusal(failure: Failure) {
    failure.DuplicateTarget? || failure.CanonicalIsTarget? || failure.Irregular?
  }

  /** No target is the canonical file, and no two are the same, once their case has been normalised. */
  predicate Acceptable(targets: seq<Path>, canonical: Path, normcase: Path -> string) {
    && (forall i :: 0 <= i < |targets| ==> normcase(targets[i]) != normcase(canonical))
    && (forall i, j :: 0 <= i < j < |targets| ==> normcase(targets[i]) != normcase(targets[j]))
  }

  /** No target is a link, a reparse point or something else that is not a file. */
  predicate AllRegular(targets: seq<Path>, regular: Path -> bool) {
    forall i :: 0 <= i < |targets| ==> regular(targets[i])
  }

  /** The checks made on the target list before anything is written. */
  method CheckTargets(targets: seq<Path>, canonical: Path, normcase: Path -> string, regular: Path -> bool)
    returns (failure: Option<Failure>)
    ensures failure.None? <==> Acceptable(targets, canonical, normcase) && AllRegular(targets, regular)
    ensures failure.Some? && !failure.value.Irregular? ==> !Acceptable(targets, canonical, normcase)
    ensures failure.Some? && failure.value.DuplicateTarget? ==>
              exists i, j :: 0 <= i < j < |targets| && targets[j] == failure.value.path
                          && normcase(targets[i]) == normcase(targets[j])
    ensures failure == Some(CanonicalIsTarget) ==>
              exists i :: 0 <= i < |targets| && normcase(targets[i]) == normcase(canonical)
    ensures failure == Some(Irregular) ==> !AllRegular(targets, regular)
    ensures failure.Some? ==> Refusal(failure.value)
  {
    var seen: set<string> := {};
    for i := 0 to |targets|
      invariant Acceptable(targets[..i], canonical, normcase) && AllRegular(targets[..i], regular)
      invariant forall m :: m in seen <==> exists j :: 0 <= j < i && normcase(targets[j]) == m
    {
      var marker := normcase(targets[i]);
      if marker in seen {
        return Some(DuplicateTarget(targets[i]));
      }
      if normcase(canonical) == marker {
        return Some(CanonicalIsTarget);
      }
      seen := seen + {marker};
      if !regular(targets[i]) {
        return Some(Irregular);
      }
    }
    assert targets[..|targets|] == targets;
    failure := None;
  }

  /** The comparison of every target with the canonical bytes. */
  method Compare(fs: FileSystem, targets: seq<Path>, canonical: Bytes)
    returns (ok: bool, allMatch: bool, rows: seq<Row>)
    modifies fs`step
    ensures fs.step >= old(fs.step) && (ok <==> fs.NoFaults(old(fs.step), fs.step))
    ensures ok <==> fs.NoFaults(old(fs.step), old(fs.step) + |targets|)
    ensures ok ==> |rows| == |targets|
    ensures ok ==> forall i :: 0 <= i < |targets| ==>
              rows[i] == Row(targets[i], StatusOf(fs.files, targets[i], canonical))
    ensures ok ==> (allMatch <==> forall i :: 0 <= i < |targets| ==> Lookup(fs.files, targets[i]) == Some(canonical))
  {
    rows, allMatch := [], true;
    for i := 0 to |targets|
      invariant fs.step == old(fs.step) + i && fs.NoFaults(old(fs.step), fs.step)
      invariant |rows| == i
      invariant forall j :: 0 <= j < i ==> rows[j] == Row(targets[j], StatusOf(fs.files, targets[j], canonical))
      invariant allMatch <==> forall j :: 0 <= j < i ==> Lookup(fs.files, targets[j]) == Some(canonical)
    {
      var readable := fs.Attempt();
      if !readable {
        return false, false, rows;
      }
      var status := StatusOf(fs.files, targets[i], canonical);
      allMatch := allMatch && status == Match;
      rows := rows + [Row(targets[i], status)];
    }
    ok := true;
  }

  /** After an install every target reads back as the canonical bytes. */
  lemma InstalledReadsBack(files: Files, targets: seq<Path>, canonical: Bytes)
    ensures forall i :: 0 <= i < |targets| ==>
              Lookup(Installed(files, Elements(targets), canonical), targets[i]) == Some(canonical)
  {
    forall i | 0 <= i < |targets|
      ensures Lookup(Installed(files, Elements(targets), canonical), targets[i]) == Some(canonical)
    {
      assert targets[i] in Elements(targets);
    }
  }

  /** The number of operations that can fail up to the report. */
  function WriteSteps(targets: seq<Path>, write: bool): nat {
    if write then 7 * |targets| else 0
  }

  predicate InstallFails(outcome: Outcome) {
    outcome.Raised? && outcome.failure.InstallFailed?
  }

  /**
    The whole call.  Which operations fail decides what it comes to: an exception
    from the report, and only that, leaves every target installed.
   */
  method Synchronize(fs: FileSystem, canonical: Path, targets: seq<Path>, normcase: Path -> string,
                     regular: Path -> bool, write: bool)
    returns (outcome: Outcome)
    requires fs.Valid() && AllNamed(targets)
    modifies fs
    ensures fs.Valid()
    ensures canonical !in old(fs.files) <==> outcome == Raised(CanonicalMissing)
    ensures canonical in old(fs.files) ==>
              (outcome.Raised? && Refusal(outcome.failure) <==>
                 !(Acceptable(targets, canonical, normcase) && AllRegular(targets, regular)))
    ensures fs.step >= old(fs.step)
    ensures canonical in old(fs.files) && Acceptable(targets, canonical, normcase) && AllRegular(targets, regular) ==>
              var written := old(fs.step) + WriteSteps(targets, write);
              && (InstallFails(outcome) <==> !fs.NoFaults(old(fs.step), written))
              && (outcome == Raised(ReportFailed) <==>
                    fs.NoFaults(old(fs.step), written) && !fs.NoFaults(written, written + |targets|))
              && (outcome.Report? <==> fs.NoFaults(old(fs.step), written + |targets|))
    ensures outcome.Report? ==> fs.NoFaults(old(fs.step), fs.step)
    ensures InstallFails(outcome) || outcome == Raised(ReportFailed) ==> !fs.NoFaults(old(fs.step), fs.step)
    ensures canonical in old(fs.files) ==>
              var bytes := old(fs.files[canonical]);
              match outcome
              case Report(allMatch, rows) =>
                && fs.files == (if write then Installed(old(fs.files), Elements(targets), bytes) else old(fs.files))
                && |rows| == |targets|
                && (forall i :: 0 <= i < |targets| ==>
                      && rows[i].path == targets[i]
                      && (rows[i].status == Missing <==> targets[i] !in fs.files)
                      && (rows[i].status == Match <==> targets[i] in fs.files && fs.files[targets[i]] == bytes))
                && (allMatch <==> forall i :: 0 <= i < |targets| ==> Lookup(fs.files, targets[i]) == Some(bytes))
                && (write ==> allMatch)
              case Raised(InstallFailed(unrestored)) =>
                && write && unrestored <= Elements(targets) && fs.files == Installed(old(fs.files), unrestored, bytes)
                && (unrestored != {} ==> fs.TwoFaults(old(fs.step), fs.step))
              case Raised(ReportFailed) =>
                fs.files == (if write then Installed(old(fs.files), Elements(targets), bytes) else old(fs.files))
              case Raised(_) =>
                fs.files == old(fs.files)
    ensures canonical in old(fs.files) && Acceptable(targets, canonical, normcase) ==>
              Lookup(fs.files, canonical) == old(Lookup(fs.files, canonical))
  {
    if canonical !in fs.files {
      return Raised(CanonicalMissing);
    }
    var bytes := fs.files[canonical];
    var refused := CheckTargets(targets, canonical, normcase, regular);
    if refused.Some? {
      return Raised(refused.value);
    }
    assert Distinct(targets);
    assert canonical !in Elements(targets);
    if write {
      var ok, unrestored := Install(fs, targets, bytes);
      if !ok {
        return Raised(InstallFailed(unrestored));
      }
      InstalledReadsBack(old(fs.files), targets, bytes);
    }
    var ok, allMatch, rows := Compare(fs, targets, bytes);
    outcome := if ok then Report(allMatch, rows) else Raised(ReportFailed);
  }

  /** The call raises though it has changed the target: the operation that fails is the one of the report. */
  method RaisesInstalled(canonical: Path, target: Path, content: Bytes, was: Bytes, normcase: Path -> string)
    returns (fs: FileSystem, outcome: Outcome)
    requires canonical.Named? && target.Named? && normcase(canonical) != normcase(target)
    ensures outcome == Raised(ReportFailed) && fs.files == map[canonical := content, target := content]
  {
    fs := new FileSystem(n => n == 7, map[canonical := content, target := was]);
    assert Installed(fs.files, Elements([target]), content) == map[canonical := content, target := content];
    assert fs.faults(7);
    outcome := Synchronize(fs, canonical, [target], normcase, _ => true, true);
  }
}
