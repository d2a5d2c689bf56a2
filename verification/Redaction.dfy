/**
  Erasure of a data subject from the JSON-lines records: the rewriting of
  records and files, and the export that looks for what is left.
 */
module Redaction {
  import opened Collections
  import opened Text
  import opened Substitution
  import Decimal

  const REDACT_TAG: string := "[REDACTED:GDPR17]"
  const SOURCE_KEY: string := "_source_file"

  /** With square brackets a subject can survive: the tag completes a new occurrence of this one. */
  lemma BracketsCanReform()
    ensures !Contains(REDACT_TAG, "x[") && CanReform("x[", REDACT_TAG)
    ensures Contains(Substitute("xx[", "x[", REDACT_TAG), "x[")
  {
    var s := "x[";
    forall i: nat | i + |s| <= |REDACT_TAG|
      ensures !MatchAt(REDACT_TAG, i, s)
    {
      assert Lower(REDACT_TAG[i + 0]) != Lower(s[0]);
    }
    var u := s[..1] + s;
    assert u == "xx[" && Lower(u[0 + 1]) != Lower(s[1]);
    assert LeadsIn(s, REDACT_TAG, 1) && FreeBefore(s, 1);
    LeadingInSurvives(s, REDACT_TAG, 1);
    assert Uncovered(s, REDACT_TAG, 1) == "" && s + "" == s;
  }

  /** But not every one: this one is always erased. */
  lemma SomeBracketsErased()
    ensures Erases("[x]", REDACT_TAG)
  {
    var s := "[x]";
    forall i: nat | i + |s| <= |REDACT_TAG|
      ensures !MatchAt(REDACT_TAG, i, s)
    {
      assert Lower(REDACT_TAG[i + 1]) != Lower(s[1]);
    }
    assert Lower(REDACT_TAG[15 + 0]) != Lower(s[0]);
    assert Lower(REDACT_TAG[16 + 0]) != Lower(s[0]);
    assert forall o :: 0 <= o < |REDACT_TAG| ==> !SticksOut(s, REDACT_TAG, o);
    assert Lower(REDACT_TAG[1 - 1]) != Lower(s[1]);
    assert Lower(REDACT_TAG[2 - 2]) != Lower(s[2]);
    assert forall a :: 0 < a < |s| ==> !LeadsIn(s, REDACT_TAG, a);
    AlwaysErased(s, REDACT_TAG);
  }

  // ---------------------------------------------------------------------------
  // Records and files
  // ---------------------------------------------------------------------------

  /** A JSON value: text, or anything else, which is never looked into. */
  datatype Value = Str(s: string) | Other(json: string)

  datatype Field = Field(key: string, value: Value)

  /** A JSON object in insertion order. */
  type Entry = seq<Field>

  /** A line that parses to an object, with its text; Raw is every other line, blank ones included. */
  datatype Line = Raw(text: string) | Record(text: string, entry: Entry)

  /** An unreadable file raises OSError when its text is read. */
  datatype Journal = Journal(readable: bool, lines: seq<Line>)

  predicate FieldMentions(f: Field, s: string) {
    f.value.Str? && Contains(f.value.s, s)
  }

  /** Some string value mentions the subject, whatever its key. */
  predicate Matches(e: Entry, s: string) {
    exists i :: 0 <= i < |e| && FieldMentions(e[i], s)
  }

  function RedactField(f: Field, s: string): Field
    requires s != ""
  {
    if f.key != SOURCE_KEY && FieldMentions(f, s) then f.(value := Str(Substitute(f.value.s, s, REDACT_TAG))) else f
  }

  predicate Redactable(f: Field, s: string) {
    f.key != SOURCE_KEY && FieldMentions(f, s)
  }

  /** The changed flag: a field other than the source marker mentions the subject. */
  predicate Changed(e: Entry, s: string) {
    exists i :: 0 <= i < |e| && Redactable(e[i], s)
  }

  function Redacted(e: Entry, s: string): Entry
    requires s != ""
  {
    seq(|e|, i requires 0 <= i < |e| => RedactField(e[i], s))
  }

  function Drop(e: Entry, key: string): (r: Entry)
    ensures forall f :: f in r <==> f in e && f.key != key
  {
    if e == [] then []
    else (if e[0].key == key then [] else [e[0]]) + Drop(e[1..], key)
  }

  /** The scan that the purge and the export both start from. */
  method EntryMatches(e: Entry, s: string) returns (found: bool)
    ensures found <==> Matches(e, s)
  {
    for i := 0 to |e|
      invariant forall k :: 0 <= k < i ==> !FieldMentions(e[k], s)
    {
      if e[i].value.Str? && Contains(e[i].value.s, s) {
        return true;
      }
    }
    return false;
  }

  method RedactEntry(e: Entry, s: string) returns (result: Entry, changed: bool)
    requires s != ""
    ensures result == Redacted(e, s) && changed == Changed(e, s)
    ensures |result| == |e|
    ensures forall i :: 0 <= i < |e| ==> result[i].key == e[i].key
    ensures forall i :: 0 <= i < |e| && (e[i].key == "_source_file" || !FieldMentions(e[i], s)) ==> result[i] == e[i]
    ensures forall i :: 0 <= i < |e| && e[i].key != "_source_file" && FieldMentions(e[i], s) ==>
              result[i].value == Str(Substitute(e[i].value.s, s, "[REDACTED:GDPR17]"))
  {
    result, changed := [], false;
    for i := 0 to |e|
      invariant |result| == i && forall k :: 0 <= k < i ==> result[k] == RedactField(e[k], s)
      invariant changed <==> exists k :: 0 <= k < i && Redactable(e[k], s)
    {
      if e[i].key == SOURCE_KEY {
        result := result + [e[i]];
      } else if e[i].value.Str? && Contains(e[i].value.s, s) {
        assert Redactable(e[i], s);
        result := result + [e[i].(value := Str(Substitute(e[i].value.s, s, REDACT_TAG)))];
        changed := true;
      } else {
        result := result + [e[i]];
      }
    }
  }

  function CleanedEntry(e: Entry, s: string): Entry
    requires s != ""
  {
    Drop(Redacted(e, s), SOURCE_KEY)
  }

  /**
    A rewritten record mentions a subject of which the tag decides exactly when
    the tag contains it and there was something to redact.
   */
  lemma CleanedEntryMatches(e: Entry, s: string)
    requires s != "" && TagDecides(s, REDACT_TAG)
    ensures Matches(CleanedEntry(e, s), s) <==> Changed(e, s) && Contains(REDACT_TAG, s)
  {
    var c, r := CleanedEntry(e, s), Redacted(e, s);
    if Matches(c, s) {
      var i :| 0 <= i < |c| && FieldMentions(c[i], s);
      assert c[i] in r;
      var j :| 0 <= j < |r| && r[j] == c[i];
      assert FieldMentions(e[j], s);
      SubstituteContains(e[j].value.s, s, REDACT_TAG);
      assert Redactable(e[j], s);
    }
    if Changed(e, s) && Contains(REDACT_TAG, s) {
      var j :| 0 <= j < |e| && Redactable(e[j], s);
      SubstituteContains(e[j].value.s, s, REDACT_TAG);
      MentionSurvives(e, s, j);
    }
  }

  function PurgedLine(l: Line, s: string, dumps: Entry -> string): Line
    requires s != ""
  {
    if l.Record? && Matches(l.entry, s) then
      var e := CleanedEntry(l.entry, s);
      Record(dumps(e), e)
    else l
  }

  function PurgedLines(ls: seq<Line>, s: string, dumps: Entry -> string): seq<Line>
    requires s != ""
  {
    seq(|ls|, i requires 0 <= i < |ls| => PurgedLine(ls[i], s, dumps))
  }

  predicate LineChanged(l: Line, s: string) {
    l.Record? && Changed(l.entry, s)
  }

  function ChangedLines(ls: seq<Line>, s: string): nat {
    if ls == [] then 0
    else ChangedLines(ls[..|ls| - 1], s) + (if LineChanged(ls[|ls| - 1], s) then 1 else 0)
  }

  lemma {:induction false} SomeLineChanged(ls: seq<Line>, s: string)
    ensures ChangedLines(ls, s) > 0 <==> exists i :: 0 <= i < |ls| && LineChanged(ls[i], s)
  {
    if ls != [] {
      var n := |ls| - 1;
      SomeLineChanged(ls[..n], s);
      assert forall i :: 0 <= i < n ==> ls[..n][i] == ls[i];
    }
  }

  predicate FileChanged(f: Journal, s: string) {
    f.readable && ChangedLines(f.lines, s) > 0
  }

  /** A file is rewritten only when something in it was redacted. */
  function PurgedFile(f: Journal, s: string, dumps: Entry -> string): Journal
    requires s != ""
  {
    if FileChanged(f, s) then f.(lines := PurgedLines(f.lines, s, dumps)) else f
  }

  predicate Mentions(f: Journal, s: string) {
    f.readable && exists i :: 0 <= i < |f.lines| && f.lines[i].Record? && Matches(f.lines[i].entry, s)
  }

  lemma ChangedMatches(e: Entry, s: string)
    ensures Changed(e, s) ==> Matches(e, s)
  {
    if Changed(e, s) {
      var i :| 0 <= i < |e| && Redactable(e[i], s);
      assert FieldMentions(e[i], s);
    }
  }

  /** Redacting a record again finds something exactly when the tag mentions the subject. */
  lemma PurgedLineChanged(l: Line, s: string, dumps: Entry -> string)
    requires s != "" && TagDecides(s, REDACT_TAG)
    ensures LineChanged(PurgedLine(l, s, dumps), s) <==> LineChanged(l, s) && Contains(REDACT_TAG, s)
    ensures var p := PurgedLine(l, s, dumps);
            p.Record? && Matches(p.entry, s) <==> LineChanged(l, s) && Contains(REDACT_TAG, s)
  {
    if l.Record? {
      ChangedMatches(l.entry, s);
      if Matches(l.entry, s) {
        var c := CleanedEntry(l.entry, s);
        CleanedEntryMatches(l.entry, s);
        if Matches(c, s) {
          var i :| 0 <= i < |c| && FieldMentions(c[i], s);
          assert c[i] in c;
          assert Redactable(c[i], s);
        }
        ChangedMatches(c, s);
      }
    }
  }

  /**
    After a purge a readable file still mentions such a subject exactly
    when something was redacted and the tag mentions it, or nothing was
    redacted and a record mentions it in its source marker alone.
   */
  lemma MentionsAfterPurge(f: Journal, s: string, dumps: Entry -> string)
    requires s != "" && TagDecides(s, REDACT_TAG)
    ensures Mentions(PurgedFile(f, s, dumps), s)
       <==> if FileChanged(f, s) then Contains(REDACT_TAG, s) else Mentions(f, s)
  {
    SomeLineChanged(f.lines, s);
    if FileChanged(f, s) {
      var p := PurgedFile(f, s, dumps);
      forall i | 0 <= i < |f.lines|
        ensures p.lines[i].Record? && Matches(p.lines[i].entry, s)
           <==> LineChanged(f.lines[i], s) && Contains(REDACT_TAG, s)
      {
        PurgedLineChanged(f.lines[i], s, dumps);
      }
      var k :| 0 <= k < |f.lines| && LineChanged(f.lines[k], s);
      assert Contains(REDACT_TAG, s) ==> p.lines[k].Record? && Matches(p.lines[k].entry, s);
    }
  }

  /** A second purge rewrites exactly the files that the first one rewrote with a tag mentioning the subject. */
  lemma ChangedAfterPurge(f: Journal, s: string, dumps: Entry -> string)
    requires s != "" && TagDecides(s, REDACT_TAG)
    ensures FileChanged(PurgedFile(f, s, dumps), s) <==> FileChanged(f, s) && Contains(REDACT_TAG, s)
  {
    SomeLineChanged(f.lines, s);
    if FileChanged(f, s) {
      var p := PurgedFile(f, s, dumps);
      SomeLineChanged(p.lines, s);
      forall i | 0 <= i < |f.lines|
        ensures LineChanged(p.lines[i], s) <==> LineChanged(f.lines[i], s) && Contains(REDACT_TAG, s)
      {
        PurgedLineChanged(f.lines[i], s, dumps);
      }
      var k :| 0 <= k < |f.lines| && LineChanged(f.lines[k], s);
      assert Contains(REDACT_TAG, s) ==> LineChanged(p.lines[k], s);
    }
  }

  predicate NoMarkers(f: Journal) {
    forall i, k :: 0 <= i < |f.lines| && f.lines[i].Record? && 0 <= k < |f.lines[i].entry| ==>
      f.lines[i].entry[k].key != SOURCE_KEY
  }

  /** Where no record carries a source marker, a purge of a subject that is always erased leaves no mention at all. */
  lemma PurgedFileIsClean(f: Journal, s: string, dumps: Entry -> string)
    requires s != "" && !CanReform(s, REDACT_TAG) && !Contains(REDACT_TAG, s)
    requires NoMarkers(f)
    ensures !Mentions(PurgedFile(f, s, dumps), s)
  {
    MentionsAfterPurge(f, s, dumps);
    SomeLineChanged(f.lines, s);
    if Mentions(f, s) {
      var i :| 0 <= i < |f.lines| && f.lines[i].Record? && Matches(f.lines[i].entry, s);
      var k :| 0 <= k < |f.lines[i].entry| && FieldMentions(f.lines[i].entry[k], s);
      assert Redactable(f.lines[i].entry[k], s);
      assert LineChanged(f.lines[i], s);
    }
  }

  /** In particular none of a subject without square brackets that the tag does not contain. */
  lemma BracketFreeIsErased(f: Journal, s: string, dumps: Entry -> string)
    requires s != "" && NoBrackets(s) && !Contains(REDACT_TAG, s)
    ensures NoMarkers(f) ==> !Mentions(PurgedFile(f, s, dumps), s)
    ensures forall v :: !Contains(Substitute(v, s, REDACT_TAG), s)
  {
    NoBracketsNoReform(s, REDACT_TAG);
    AlwaysErased(s, REDACT_TAG);
    if NoMarkers(f) {
      PurgedFileIsClean(f, s, dumps);
    }
  }

  /** A file with one record, of one field. */
  function OneField(v: string): Journal {
    Journal(true, [Record("", [Field("note", Str(v))])])
  }

  /** Some file without source markers still mentions a subject that the tag contains or completes. */
  lemma SurvivesPurge(s: string, dumps: Entry -> string) returns (f: Journal)
    requires s != "" && (CanReform(s, REDACT_TAG) || Contains(REDACT_TAG, s))
    ensures NoMarkers(f) && FileChanged(f, s) && Mentions(PurgedFile(f, s, dumps), s)
  {
    var v := Survivor(s, REDACT_TAG);
    f := OneField(v);
    var l := f.lines[0];
    var e := l.entry;
    if !Contains(v, s) {
      Untouched(v, s, REDACT_TAG);
    }
    assert |e[0].key| != |SOURCE_KEY|;
    assert FieldMentions(e[0], s) && Redactable(e[0], s);
    assert Matches(e, s) && LineChanged(l, s);
    SomeLineChanged(f.lines, s);
    MentionSurvives(e, s, 0);
    assert PurgedFile(f, s, dumps).lines[0] == PurgedLine(l, s, dumps);
  }

  lemma MentionSurvives(e: Entry, s: string, j: nat)
    requires s != "" && j < |e| && Redactable(e[j], s) && Contains(Substitute(e[j].value.s, s, REDACT_TAG), s)
    ensures Matches(CleanedEntry(e, s), s)
  {
    var c, r := CleanedEntry(e, s), Redacted(e, s);
    assert r[j] == RedactField(e[j], s) && r[j] in c;
    var i :| 0 <= i < |c| && c[i] == r[j];
    assert FieldMentions(c[i], s);
  }

  /**
    So a purge is sure to leave no mention, source markers aside, exactly for
    subjects that the tag neither contains nor can complete.
   */
  lemma PurgeIsSure(s: string, dumps: Entry -> string)
    requires s != ""
    ensures (forall f :: NoMarkers(f) ==> !Mentions(PurgedFile(f, s, dumps), s)) <==>
              !CanReform(s, REDACT_TAG) && !Contains(REDACT_TAG, s)
  {
    if !CanReform(s, REDACT_TAG) && !Contains(REDACT_TAG, s) {
      forall f | NoMarkers(f)
        ensures !Mentions(PurgedFile(f, s, dumps), s)
      {
        PurgedFileIsClean(f, s, dumps);
      }
    } else {
      var f := SurvivesPurge(s, dumps);
    }
  }

  /** The account of `MentionsAfterPurge` is right for every file exactly for such subjects. */
  lemma MentionsAfterPurgeIff(s: string, dumps: Entry -> string)
    requires s != ""
    ensures (forall f :: Mentions(PurgedFile(f, s, dumps), s)
                    <==> if FileChanged(f, s) then Contains(REDACT_TAG, s) else Mentions(f, s)) <==>
              TagDecides(s, REDACT_TAG)
  {
    if TagDecides(s, REDACT_TAG) {
      forall f
        ensures Mentions(PurgedFile(f, s, dumps), s)
           <==> if FileChanged(f, s) then Contains(REDACT_TAG, s) else Mentions(f, s)
      {
        MentionsAfterPurge(f, s, dumps);
      }
    } else {
      var f := SurvivesPurge(s, dumps);
    }
  }

  /** Lines that do not mention the subject keep their text, whatever happens around them. */
  lemma UnmatchedLinesKept(f: Journal, s: string, dumps: Entry -> string, i: nat)
    requires s != "" && i < |f.lines|
    requires f.lines[i].Raw? || !Matches(f.lines[i].entry, s)
    ensures |PurgedFile(f, s, dumps).lines| == |f.lines| && PurgedFile(f, s, dumps).lines[i] == f.lines[i]
  {
  }

  /** The field itself, or nothing if it has the key. */
  function DropOne(f: Field, key: string): Entry {
    if f.key == key then [] else [f]
  }

  lemma DropCons(f: Field, e: Entry, key: string)
    ensures Drop([f] + e, key) == DropOne(f, key) + Drop(e, key)
  {
    assert ([f] + e)[1..] == e;
  }

  /** Dropping a key goes field by field. */
  lemma {:induction false} DropAppend(d: Entry, e: Entry, key: string)
    ensures Drop(d + e, key) == Drop(d, key) + Drop(e, key)
    decreases |d|
  {
    if d != [] {
      var f, rest := d[0], d[1..];
      assert d == [f] + rest && d + e == [f] + (rest + e);
      DropAppend(rest, e, key);
      DropCons(f, rest, key);
      DropCons(f, rest + e, key);
      Associate(DropOne(f, key), Drop(rest, key), Drop(e, key));
    } else {
      assert d + e == e;
    }
  }

  lemma DropSingle(f: Field, key: string)
    ensures Drop([f], key) == if f.key == key then [] else [f]
  {
    assert [f][1..] == [];
  }

  /**
    `e` rewritten: field by field, it has the fields of `e` that are no source
    marker, each as it was unless it mentions the subject, and then with the
    subject replaced.
   */
  ghost predicate Rewritten(d: Entry, e: Entry, s: string)
    requires s != ""
  {
    var kept := Drop(e, "_source_file");
    && |d| == |kept|
    && forall i :: 0 <= i < |d| ==>
         && d[i].key == kept[i].key
         && d[i].value == if kept[i].value.Str? && Contains(kept[i].value.s, s)
                          then Str(Substitute(kept[i].value.s, s, "[REDACTED:GDPR17]")) else kept[i].value
  }

  lemma {:induction false} CleanedIsRewritten(e: Entry, s: string)
    requires s != ""
    ensures Rewritten(CleanedEntry(e, s), e, s)
    decreases |e|
  {
    if e != [] {
      var f, rest := e[0], e[1..];
      CleanedIsRewritten(rest, s);
      assert e == [f] + rest && Redacted(e, s) == [RedactField(f, s)] + Redacted(rest, s);
      DropCons(f, rest, SOURCE_KEY);
      DropCons(RedactField(f, s), Redacted(rest, s), SOURCE_KEY);
      RewrittenCons(DropOne(RedactField(f, s), SOURCE_KEY), CleanedEntry(rest, s), f, rest, s);
    }
  }

  lemma RewrittenCons(d: Entry, ds: Entry, f: Field, rest: Entry, s: string)
    requires s != "" && Rewritten(ds, rest, s) && d == DropOne(RedactField(f, s), SOURCE_KEY)
    requires Drop([f] + rest, SOURCE_KEY) == DropOne(f, SOURCE_KEY) + Drop(rest, SOURCE_KEY)
    ensures Rewritten(d + ds, [f] + rest, s)
  {
  }

  /**
    What a purge does to a file that can be read and has something to redact: it
    keeps every line in its place, unmatched ones as they are, and rewrites every
    matched record, of which every other field survives, in order.
   */
  lemma PurgedFileKeeps(f: Journal, s: string, dumps: Entry -> string, i: nat)
    requires s != "" && FileChanged(f, s) && i < |f.lines|
    ensures var g := PurgedFile(f, s, dumps);
            && g.readable && |g.lines| == |f.lines|
            && (if f.lines[i].Record? && Matches(f.lines[i].entry, s) then
                  && g.lines[i].Record? && Rewritten(g.lines[i].entry, f.lines[i].entry, s)
                  && g.lines[i].text == dumps(g.lines[i].entry)
                else g.lines[i] == f.lines[i])
  {
    if f.lines[i].Record? {
      CleanedIsRewritten(f.lines[i].entry, s);
    }
  }

  /** A file in which nothing but source markers mentions the subject is left alone. */
  lemma UnchangedFileKept(f: Journal, s: string, dumps: Entry -> string)
    requires s != ""
    requires forall i, k :: 0 <= i < |f.lines| && f.lines[i].Record? && 0 <= k < |f.lines[i].entry| ==>
               f.lines[i].entry[k].key == "_source_file" || !FieldMentions(f.lines[i].entry[k], s)
    ensures PurgedFile(f, s, dumps) == f
  {
    SomeLineChanged(f.lines, s);
  }

  /** One round of the inner loop: the line to keep, and whether it counts as redacted. */
  method PurgeLine(l: Line, s: string, dumps: Entry -> string) returns (newLine: Line, changed: bool)
    requires s != ""
    ensures newLine == PurgedLine(l, s, dumps) && changed == LineChanged(l, s)
  {
    newLine, changed := l, false;
    if l.Record? {
      ChangedMatches(l.entry, s);
      var matched := EntryMatches(l.entry, s);
      if matched {
        var redacted;
        redacted, changed := RedactEntry(l.entry, s);
        redacted := Drop(redacted, SOURCE_KEY);
        newLine := Record(dumps(redacted), redacted);
      }
    }
  }

  /** The first `i` lines have been dealt with, giving `newLines` and the count so far. */
  ghost predicate PurgedTo(ls: seq<Line>, i: nat, newLines: seq<Line>, count: nat, s: string, dumps: Entry -> string)
    requires s != ""
  {
    && i <= |ls|
    && newLines == PurgedLines(ls[..i], s, dumps)
    && count == ChangedLines(ls[..i], s)
  }

  lemma OneMoreLine(ls: seq<Line>, i: nat, newLines: seq<Line>, count: nat, s: string, dumps: Entry -> string)
    requires s != "" && PurgedTo(ls, i, newLines, count, s, dumps) && i < |ls|
    ensures PurgedTo(ls, i + 1, newLines + [PurgedLine(ls[i], s, dumps)],
                     count + (if LineChanged(ls[i], s) then 1 else 0), s, dumps)
  {
    assert ls[..i + 1][..i] == ls[..i];
  }

  lemma AllLines(ls: seq<Line>, newLines: seq<Line>, count: nat, s: string, dumps: Entry -> string)
    requires s != "" && PurgedTo(ls, |ls|, newLines, count, s, dumps)
    ensures newLines == PurgedLines(ls, s, dumps) && count == ChangedLines(ls, s)
  {
    assert ls[..|ls|] == ls;
  }

  /** The inner loop of the purge, on one file's lines. */
  method PurgeLines(ls: seq<Line>, s: string, dumps: Entry -> string)
    returns (newLines: seq<Line>, redactedCount: nat, fileChanged: bool)
    requires s != ""
    ensures newLines == PurgedLines(ls, s, dumps)
    ensures redactedCount == ChangedLines(ls, s) && fileChanged == (redactedCount > 0)
  {
    newLines, redactedCount, fileChanged := [], 0, false;
    for i := 0 to |ls|
      invariant PurgedTo(ls, i, newLines, redactedCount, s, dumps)
      invariant fileChanged == (redactedCount > 0)
    {
      OneMoreLine(ls, i, newLines, redactedCount, s, dumps);
      var newLine, changed := PurgeLine(ls[i], s, dumps);
      newLines := newLines + [newLine];
      if changed {
        redactedCount := redactedCount + 1;
        fileChanged := true;
      }
    }
    AllLines(ls, newLines, redactedCount, s, dumps);
  }

  /** The outer loop's work on one file. */
  method PurgeJournal(f: Journal, s: string, dumps: Entry -> string)
    returns (g: Journal, redactedCount: nat, fileChanged: bool)
    requires s != ""
    ensures g == PurgedFile(f, s, dumps) && fileChanged == FileChanged(f, s)
    ensures redactedCount == if fileChanged then ChangedLines(f.lines, s) else 0
  {
    g, redactedCount, fileChanged := f, 0, false;
    if f.readable {
      var newLines;
      newLines, redactedCount, fileChanged := PurgeLines(f.lines, s, dumps);
      if fileChanged {
        g := f.(lines := newLines);
      }
    }
  }

  // ---------------------------------------------------------------------------
  // The directory
  // ---------------------------------------------------------------------------

  const AUDIT_PATH: string := ".signalos/AUDIT_TRAIL.jsonl"

  type Directory = map<string, Journal>

  datatype Summary = Summary(filesModified: nat, entriesRedacted: nat)

  /** The DataPrivacyError messages. */
  datatype Refusal = BlankSubject | BlankReason

  datatype Outcome<T> = Done(value: T) | Refused(why: Refusal)

  /** What listing the directory returns: every path once, in some order. */
  ghost predicate Lists(paths: seq<string>, files: Directory) {
    && (forall i :: 0 <= i < |paths| ==> paths[i] in files)
    && (forall p :: p in files ==> p in paths)
    && (forall i, j :: 0 <= i < j < |paths| ==> paths[i] != paths[j])
  }

  /** The audit record.  It names the counts, the stated reason and the tag, never the subject itself. */
  function PurgeRecord(ts: string, reason: string, done: Summary): Entry {
    [Field("ts", Str(ts)),
     Field("actor", Str("system")),
     Field("role", Str("system")),
     Field("action", Str("gdpr-purge")),
     Field("subject", Str(REDACT_TAG)),
     Field("reason", Str(reason)),
     Field("entries_redacted", Other(Decimal.Print(done.entriesRedacted))),
     Field("files_modified", Other(Decimal.Print(done.filesModified))),
     Field("verdict", Str("APPROVED")),
     Field("message", Str("GDPR Article 17 erasure \U{2014} " + Decimal.Print(done.entriesRedacted)
                          + " entries redacted across " + Decimal.Print(done.filesModified) + " file(s)"))]
  }

  function Appended(files: Directory, l: Line): Directory {
    files[AUDIT_PATH :=
      if AUDIT_PATH in files then Journal(files[AUDIT_PATH].readable, files[AUDIT_PATH].lines + [l])
      else Journal(true, [l])]
  }

  function PurgedFiles(files: Directory, s: string, dumps: Entry -> string): Directory
    requires s != ""
  {
    map p | p in files :: PurgedFile(files[p], s, dumps)
  }

  function CountChanged(files: Directory, paths: seq<string>, s: string): Summary
    requires forall i :: 0 <= i < |paths| ==> paths[i] in files
  {
    if paths == [] then Summary(0, 0)
    else
      var before := CountChanged(files, paths[..|paths| - 1], s);
      var f := files[paths[|paths| - 1]];
      if FileChanged(f, s) then
        Summary(before.filesModified + 1, before.entriesRedacted + ChangedLines(f.lines, s))
      else before
  }

  /** After a purge every file but the audit trail is the purged one, and the trail has one record more. */
  lemma AfterPurgeIs(files: Directory, paths: seq<string>, s: string, reason: string, ts: string,
                     dumps: Entry -> string, p: string)
    requires s != "" && forall i :: 0 <= i < |paths| ==> paths[i] in files
    ensures var after := AfterPurge(files, paths, s, reason, ts, dumps);
            var e := PurgeRecord(ts, reason, CountChanged(files, paths, s));
            var trail := ".signalos/AUDIT_TRAIL.jsonl";
            && after.Keys == files.Keys + {trail}
            && (p in files && p != trail ==> after[p] == PurgedFile(files[p], s, dumps))
            && after[trail].lines ==
                 (if trail in files then PurgedFile(files[trail], s, dumps).lines else []) + [Record(dumps(e), e)]
  {
  }

  /** What the audit record says. */
  lemma PurgeRecordSays(ts: string, reason: string, done: Summary)
    ensures var e := PurgeRecord(ts, reason, done);
            && Field("action", Str("gdpr-purge")) in e && Field("reason", Str(reason)) in e && Field("ts", Str(ts)) in e
            && Field("subject", Str("[REDACTED:GDPR17]")) in e
            && Field("entries_redacted", Other(Decimal.Print(done.entriesRedacted))) in e
            && Field("files_modified", Other(Decimal.Print(done.filesModified))) in e
            && |e| == 10
  {
    var e := PurgeRecord(ts, reason, done);
    assert e[0] in e && e[3] in e && e[4] in e && e[5] in e && e[6] in e && e[7] in e;
  }

  /** A field of the line that is not a source marker mentions the subject. */
  predicate HasMention(l: Line, s: string) {
    && l.Record?
    && exists k :: 0 <= k < |l.entry| && l.entry[k].key != "_source_file" && FieldMentions(l.entry[k], s)
  }

  ghost function RedactedAt(ls: seq<Line>, s: string): set<nat> {
    set i | 0 <= i < |ls| && HasMention(ls[i], s)
  }

  lemma LineChangedIs(l: Line, s: string)
    ensures LineChanged(l, s) <==> HasMention(l, s)
  {
    if LineChanged(l, s) {
      var k :| 0 <= k < |l.entry| && Redactable(l.entry[k], s);
      assert FieldMentions(l.entry[k], s);
    }
    if HasMention(l, s) {
      var k :| 0 <= k < |l.entry| && l.entry[k].key != "_source_file" && FieldMentions(l.entry[k], s);
      assert Redactable(l.entry[k], s);
    }
  }

  lemma {:induction false} ChangedLinesCount(ls: seq<Line>, s: string)
    ensures ChangedLines(ls, s) == |RedactedAt(ls, s)|
    decreases |ls|
  {
    if ls != [] {
      var init, n := ls[..|ls| - 1], |ls| - 1;
      ChangedLinesCount(init, s);
      LineChangedIs(ls[n], s);
      RedactedAtSnoc(ls, s);
    }
  }

  lemma RedactedAtSnoc(ls: seq<Line>, s: string)
    requires ls != []
    ensures var n := |ls| - 1;
            && n !in RedactedAt(ls[..n], s)
            && RedactedAt(ls, s) ==
                 if HasMention(ls[n], s) then RedactedAt(ls[..n], s) + {n} else RedactedAt(ls[..n], s)
  {
    var n := |ls| - 1;
    forall i: nat
      ensures i in RedactedAt(ls, s) <==> i in RedactedAt(ls[..n], s) || (i == n && HasMention(ls[n], s))
    {
      assert i < n ==> ls[..n][i] == ls[i];
    }
  }

  /** The counts add up over the listed files. */
  lemma {:induction false} CountAppend(files: Directory, a: seq<string>, b: seq<string>, s: string)
    requires forall i :: 0 <= i < |a| ==> a[i] in files
    requires forall i :: 0 <= i < |b| ==> b[i] in files
    ensures forall i :: 0 <= i < |a + b| ==> (a + b)[i] in files
    ensures CountChanged(files, a + b, s) ==
              Summary(CountChanged(files, a, s).filesModified + CountChanged(files, b, s).filesModified,
                      CountChanged(files, a, s).entriesRedacted + CountChanged(files, b, s).entriesRedacted)
    decreases |b|
  {
    if b != [] {
      var init := b[..|b| - 1];
      CountAppend(files, a, init, s);
      assert (a + b)[..|a + b| - 1] == a + init && (a + b)[|a + b| - 1] == b[|b| - 1];
    } else {
      assert a + b == a;
    }
  }

  /** A file counts as modified if it can be read and a line is redacted, and then each such line counts. */
  lemma CountOneFile(files: Directory, p: string, s: string)
    requires p in files
    ensures CountChanged(files, [p], s) ==
              if files[p].readable && RedactedAt(files[p].lines, s) != {}
              then Summary(1, |RedactedAt(files[p].lines, s)|) else Summary(0, 0)
  {
    ChangedLinesCount(files[p].lines, s);
    assert [p][..0] == [];
    if RedactedAt(files[p].lines, s) == {} {
      assert |RedactedAt(files[p].lines, s)| == 0;
    } else {
      var i :| i in RedactedAt(files[p].lines, s);
      SomeLineChanged(files[p].lines, s);
      LineChangedIs(files[p].lines[i], s);
    }
  }

  /** The directory after a purge that was not refused. */
  function AfterPurge(files: Directory, paths: seq<string>, s: string, reason: string, ts: string,
                      dumps: Entry -> string): Directory
    requires s != ""
    requires forall i :: 0 <= i < |paths| ==> paths[i] in files
  {
    var e := PurgeRecord(ts, reason, CountChanged(files, paths, s));
    Appended(PurgedFiles(files, s, dumps), Record(dumps(e), e))
  }

  /** `entry["_source_file"] = path`: replaced where it stands, else added at the end. */
  function WithSource(e: Entry, path: string): Entry {
    if e == [] then [Field(SOURCE_KEY, Str(path))]
    else if e[0].key == SOURCE_KEY then [Field(SOURCE_KEY, Str(path))] + e[1..]
    else [e[0]] + WithSource(e[1..], path)
  }

  function ExportedLines(ls: seq<Line>, path: string, s: string): seq<Entry> {
    if ls == [] then []
    else
      ExportedLines(ls[..|ls| - 1], path, s)
      + (var l := ls[|ls| - 1];
         if l.Record? && Matches(l.entry, s) then [WithSource(l.entry, path)] else [])
  }

  method ExportLines(ls: seq<Line>, path: string, s: string) returns (matches: seq<Entry>)
    ensures matches == ExportedLines(ls, path, s)
  {
    matches := [];
    for j := 0 to |ls|
      invariant matches == ExportedLines(ls[..j], path, s)
    {
      assert ls[..j + 1][..j] == ls[..j];
      if ls[j].Record? {
        var matched := EntryMatches(ls[j].entry, s);
        if matched {
          matches := matches + [WithSource(ls[j].entry, path)];
        }
      }
    }
    assert ls[..|ls|] == ls;
  }

  function Exported(files: Directory, paths: seq<string>, s: string): seq<Entry>
    requires forall i :: 0 <= i < |paths| ==> paths[i] in files
  {
    if paths == [] then []
    else
      var p := paths[|paths| - 1];
      Exported(files, paths[..|paths| - 1], s)
      + (if files[p].readable then ExportedLines(files[p].lines, p, s) else [])
  }

  lemma OneMoreFile(files: Directory, paths: seq<string>, n: nat, s: string)
    requires n < |paths| && Lists(paths, files)
    ensures var before, f := CountChanged(files, paths[..n], s), files[paths[n]];
            CountChanged(files, paths[..n + 1], s) ==
              if FileChanged(f, s) then
                Summary(before.filesModified + 1, before.entriesRedacted + ChangedLines(f.lines, s))
              else before
  {
    assert paths[..n + 1][..n] == paths[..n];
  }

  /** `now` is `files` once the first `n` listed files have been dealt with. */
  ghost predicate PurgedUpTo(files: Directory, now: Directory, paths: seq<string>, n: nat, s: string,
                             dumps: Entry -> string)
    requires s != ""
  {
    && now.Keys == files.Keys
    && (forall k :: 0 <= k < n <= |paths| && paths[k] in files ==>
          now[paths[k]] == PurgedFile(files[paths[k]], s, dumps))
    && (forall k :: n <= k < |paths| && paths[k] in files ==> now[paths[k]] == files[paths[k]])
  }

  lemma PurgeStep(files: Directory, now: Directory, paths: seq<string>, n: nat, s: string, dumps: Entry -> string)
    requires s != "" && n < |paths| && Lists(paths, files)
    requires PurgedUpTo(files, now, paths, n, s, dumps)
    ensures now[paths[n]] == files[paths[n]]
    ensures FileChanged(files[paths[n]], s) ==>
              PurgedUpTo(files, now[paths[n] := PurgedFile(files[paths[n]], s, dumps)], paths, n + 1, s, dumps)
    ensures !FileChanged(files[paths[n]], s) ==> PurgedUpTo(files, now, paths, n + 1, s, dumps)
  {
    var p := paths[n];
    if FileChanged(files[p], s) {
      UpdateOne(files, now, paths, n, s, dumps, PurgedFile(files[p], s, dumps));
    } else {
      UpdateOne(files, now, paths, n, s, dumps, files[p]);
      assert now[p := files[p]] == now;
    }
  }

  lemma UpdateOne(files: Directory, now: Directory, paths: seq<string>, n: nat, s: string, dumps: Entry -> string,
                  f: Journal)
    requires s != "" && n < |paths| && Lists(paths, files)
    requires PurgedUpTo(files, now, paths, n, s, dumps) && f == PurgedFile(files[paths[n]], s, dumps)
    ensures PurgedUpTo(files, now[paths[n] := f], paths, n + 1, s, dumps)
  {
    var after := now[paths[n] := f];
    forall k | 0 <= k < n + 1
      ensures after[paths[k]] == PurgedFile(files[paths[k]], s, dumps)
    {
      if k < n {
        assert paths[k] != paths[n];
      }
    }
  }

  lemma PurgeEnd(files: Directory, now: Directory, paths: seq<string>, s: string, dumps: Entry -> string)
    requires s != "" && Lists(paths, files)
    requires PurgedUpTo(files, now, paths, |paths|, s, dumps)
    ensures now == PurgedFiles(files, s, dumps)
  {
    forall p | p in files
      ensures now[p] == PurgedFile(files[p], s, dumps)
    {
      assert p in paths;
    }
  }

  class PrivacyTool {
    var files: Directory

    /** Every record that mentions the subject, marked with the file it is in. */
    method ExportSubject(subject: string, paths: seq<string>) returns (r: Outcome<seq<Entry>>)
      requires Lists(paths, files)
      ensures r == if IsBlank(subject) then Refused(BlankSubject) else Done(Exported(files, paths, Strip(subject)))
    {
      if IsBlank(subject) {
        return Refused(BlankSubject);
      }
      var s := Strip(subject);
      var matches: seq<Entry> := [];
      for i := 0 to |paths|
        invariant matches == Exported(files, paths[..i], s)
      {
        assert paths[..i + 1][..i] == paths[..i];
        var f := files[paths[i]];
        if f.readable {
          var more := ExportLines(f.lines, paths[i], s);
          matches := matches + more;
        }
      }
      assert paths[..|paths|] == paths;
      return Done(matches);
    }

    /** The loop over the listed files. */
    method PurgeFiles(s: string, paths: seq<string>, dumps: Entry -> string) returns (done: Summary)
      requires s != "" && Lists(paths, files)
      modifies this
      ensures done == CountChanged(old(files), paths, s)
      ensures files == PurgedFiles(old(files), s, dumps)
    {
      var filesModified, entriesRedacted := 0, 0;
      ghost var was := files;
      for i := 0 to |paths|
        invariant PurgedUpTo(was, files, paths, i, s, dumps)
        invariant Summary(filesModified, entriesRedacted) == CountChanged(was, paths[..i], s)
      {
        OneMoreFile(was, paths, i, s);
        PurgeStep(was, files, paths, i, s, dumps);
        var f, redactedCount, fileChanged := PurgeJournal(files[paths[i]], s, dumps);
        entriesRedacted := entriesRedacted + redactedCount;
        if fileChanged {
          files := files[paths[i] := f];
          filesModified := filesModified + 1;
        }
      }
      PurgeEnd(was, files, paths, s, dumps);
      assert paths[..|paths|] == paths;
      return Summary(filesModified, entriesRedacted);
    }

    /** Redacts the subject in every readable file, then appends the audit record. */
    method PurgeSubject(subject: string, reason: string, paths: seq<string>, ts: string, dumps: Entry -> string)
      returns (r: Outcome<Summary>)
      requires Lists(paths, files)
      modifies this
      ensures IsBlank(subject) || IsBlank(reason) ==>
                r == Refused(if IsBlank(subject) then BlankSubject else BlankReason) && files == old(files)
      ensures !IsBlank(subject) && !IsBlank(reason) ==>
                && Strip(subject) != ""
                && r == Done(CountChanged(old(files), paths, Strip(subject)))
                && files == AfterPurge(old(files), paths, Strip(subject), reason, ts, dumps)
    {
      if IsBlank(subject) {
        return Refused(BlankSubject);
      }
      if IsBlank(reason) {
        return Refused(BlankReason);
      }
      StripNonBlank(subject);
      var done := PurgeFiles(Strip(subject), paths, dumps);
      var e := PurgeRecord(ts, reason, done);
      files := Appended(files, Record(dumps(e), e));
      return Done(done);
    }
  }

  // ---------------------------------------------------------------------------
  // What a purge leaves
  // ---------------------------------------------------------------------------

  lemma {:induction false} ExportedLinesEmpty(ls: seq<Line>, path: string, s: string)
    ensures ExportedLines(ls, path, s) == []
       <==> forall i :: 0 <= i < |ls| ==> ls[i].Raw? || !Matches(ls[i].entry, s)
  {
    if ls != [] {
      var n := |ls| - 1;
      ExportedLinesEmpty(ls[..n], path, s);
      assert forall i :: 0 <= i < n ==> ls[..n][i] == ls[i];
    }
  }

  /** Marking a record with its file sets that one field and keeps all the others, in order. */
  lemma {:induction false} WithSourceMarks(e: Entry, path: string)
    ensures Field(SOURCE_KEY, Str(path)) in WithSource(e, path)
    ensures Drop(WithSource(e, path), SOURCE_KEY) == Drop(e, SOURCE_KEY)
    decreases |e|
  {
    var w := WithSource(e, path);
    if e != [] {
      if e[0].key == SOURCE_KEY {
        assert w[0] == Field(SOURCE_KEY, Str(path)) && w[1..] == e[1..];
      } else {
        WithSourceMarks(e[1..], path);
        assert w[1..] == WithSource(e[1..], path);
        var i :| 0 <= i < |w[1..]| && w[1..][i] == Field(SOURCE_KEY, Str(path));
        assert w[i + 1] == Field(SOURCE_KEY, Str(path));
      }
    }
  }

  /** Line `l` of the file at `path` is exported as `x`. */
  predicate ExportsAs(l: Line, path: string, s: string, x: Entry) {
    l.Record? && Matches(l.entry, s) && x == WithSource(l.entry, path)
  }

  lemma {:induction false} ExportedLinesExactly(ls: seq<Line>, path: string, s: string, x: Entry)
    ensures x in ExportedLines(ls, path, s) <==> exists j :: 0 <= j < |ls| && ExportsAs(ls[j], path, s, x)
    decreases |ls|
  {
    if ls != [] {
      var n := |ls| - 1;
      ExportedLinesExactly(ls[..n], path, s, x);
      assert forall j :: 0 <= j < n ==> ls[..n][j] == ls[j];
      assert x in ExportedLines(ls, path, s) <==> x in ExportedLines(ls[..n], path, s) || ExportsAs(ls[n], path, s, x);
    }
  }

  /** `x` is the copy of a matching record of `f`, which can be read. */
  predicate ExportedFrom(f: Journal, path: string, s: string, x: Entry) {
    f.readable && exists j :: 0 <= j < |f.lines| && ExportsAs(f.lines[j], path, s, x)
  }

  /** An export holds exactly the marked copies of the matching records of the readable files. */
  lemma {:induction false} ExportedExactly(files: Directory, paths: seq<string>, s: string, x: Entry)
    requires forall i :: 0 <= i < |paths| ==> paths[i] in files
    ensures x in Exported(files, paths, s)
       <==> exists i :: 0 <= i < |paths| && ExportedFrom(files[paths[i]], paths[i], s, x)
    decreases |paths|
  {
    if paths != [] {
      var n := |paths| - 1;
      ExportedExactly(files, paths[..n], s, x);
      assert forall i :: 0 <= i < n ==> paths[..n][i] == paths[i];
      ExportedLinesExactly(files[paths[n]].lines, paths[n], s, x);
    }
  }

  /** An export is empty exactly when no listed file mentions the subject. */
  lemma {:induction false} ExportEmpty(files: Directory, paths: seq<string>, s: string)
    requires forall i :: 0 <= i < |paths| ==> paths[i] in files
    ensures Exported(files, paths, s) == [] <==> forall i :: 0 <= i < |paths| ==> !Mentions(files[paths[i]], s)
  {
    if paths != [] {
      var n := |paths| - 1;
      ExportEmpty(files, paths[..n], s);
      assert forall i :: 0 <= i < n ==> paths[..n][i] == paths[i];
      ExportedLinesEmpty(files[paths[n]].lines, paths[n], s);
    }
  }

  lemma {:induction false} NoneChanged(files: Directory, paths: seq<string>, s: string)
    requires forall i :: 0 <= i < |paths| ==> paths[i] in files && !FileChanged(files[paths[i]], s)
    ensures CountChanged(files, paths, s) == Summary(0, 0)
  {
    if paths != [] {
      NoneChanged(files, paths[..|paths| - 1], s);
    }
  }

  /** Appending one record adds that record's mention, if the audit trail can be read, and nothing else. */
  lemma AppendedMentions(files: Directory, text: string, e: Entry, s: string, p: string)
    requires p in files || p == AUDIT_PATH
    ensures Mentions(Appended(files, Record(text, e))[p], s)
       <==> || (p in files && Mentions(files[p], s))
            || (p == AUDIT_PATH && (p in files ==> files[p].readable) && Matches(e, s))
    ensures p in files ==>
              (FileChanged(Appended(files, Record(text, e))[p], s)
               <==> FileChanged(files[p], s) || (p == AUDIT_PATH && files[p].readable && Changed(e, s)))
    ensures p !in files ==> (FileChanged(Appended(files, Record(text, e))[p], s) <==> Changed(e, s))
  {
    var l := Record(text, e);
    var before: Journal := if p in files then files[p] else Journal(true, []);
    var after := Appended(files, l)[p];
    SomeLineChanged(before.lines, s);
    SomeLineChanged(after.lines, s);
    if p == AUDIT_PATH {
      assert after == Journal(before.readable, before.lines + [l]);
      var n := |before.lines|;
      assert after.lines[..n] == before.lines && after.lines[n] == l;
      assert forall i :: 0 <= i < n ==> after.lines[i] == before.lines[i];
    }
  }

  /**
    For a subject that substitution always erases, and that the audit record
    does not mention, an export after the purge is empty
    exactly when no readable file that had nothing to redact has a record
    mentioning the subject in its source marker.
   */
  lemma ExportAfterPurge(files: Directory, paths: seq<string>, paths': seq<string>, s: string, reason: string,
                         ts: string, dumps: Entry -> string)
    requires s != "" && !CanReform(s, REDACT_TAG) && !Contains(REDACT_TAG, s)
    requires Lists(paths, files)
    requires !Matches(PurgeRecord(ts, reason, CountChanged(files, paths, s)), s)
    requires Lists(paths', AfterPurge(files, paths, s, reason, ts, dumps))
    ensures Exported(AfterPurge(files, paths, s, reason, ts, dumps), paths', s) == []
       <==> forall p :: p in files && Mentions(files[p], s) ==> FileChanged(files[p], s)
  {
    var after := AfterPurge(files, paths, s, reason, ts, dumps);
    var e := PurgeRecord(ts, reason, CountChanged(files, paths, s));
    ExportEmpty(after, paths', s);
    forall p | p in after
      ensures Mentions(after[p], s) <==> p in files && Mentions(files[p], s) && !FileChanged(files[p], s)
    {
      AppendedMentions(PurgedFiles(files, s, dumps), dumps(e), e, s, p);
      if p in files {
        MentionsAfterPurge(files[p], s, dumps);
      }
    }
    assert forall p :: p in files ==> p in after;
    if forall i :: 0 <= i < |paths'| ==> !Mentions(after[paths'[i]], s) {
      forall p | p in files && Mentions(files[p], s)
        ensures FileChanged(files[p], s)
      {
        assert p in paths';
      }
    }
  }

  /**
    Under the same conditions a second purge redacts nothing: it only appends
    another audit record, with both counts zero.
   */
  lemma SecondPurgeOnlyAudits(files: Directory, paths: seq<string>, paths': seq<string>, s: string, reason: string,
                              ts: string, reason': string, ts': string, dumps: Entry -> string)
    requires s != "" && !CanReform(s, REDACT_TAG) && !Contains(REDACT_TAG, s)
    requires Lists(paths, files)
    requires !Matches(PurgeRecord(ts, reason, CountChanged(files, paths, s)), s)
    requires Lists(paths', AfterPurge(files, paths, s, reason, ts, dumps))
    ensures var once := AfterPurge(files, paths, s, reason, ts, dumps);
            var e := PurgeRecord(ts', reason', Summary(0, 0));
            && CountChanged(once, paths', s) == Summary(0, 0)
            && AfterPurge(once, paths', s, reason', ts', dumps) == Appended(once, Record(dumps(e), e))
  {
    var once := AfterPurge(files, paths, s, reason, ts, dumps);
    var e := PurgeRecord(ts, reason, CountChanged(files, paths, s));
    ChangedMatches(e, s);
    forall p | p in once
      ensures !FileChanged(once[p], s)
    {
      AppendedMentions(PurgedFiles(files, s, dumps), dumps(e), e, s, p);
      if p in files {
        ChangedAfterPurge(files[p], s, dumps);
      }
    }
    NoneChanged(once, paths', s);
    assert PurgedFiles(once, s, dumps) == once;
  }
}
