/** `_strip_python_triple_quoted`: blanking the bodies of triple-quoted blocks. */
module Scrubber {
  import opened Wrappers
  import opened Collections

  const DOUBLE: char := '\"'
  const SINGLE: char := '\''

  /** Three `q`s stand at position `i`. */
  predicate TripleAt(s: string, i: nat, q: char) {
    i + 3 <= |s| && s[i] == q && s[i + 1] == q && s[i + 2] == q
  }

  lemma TripleIs(s: string, i: nat, q: char)
    ensures TripleAt(s, i, q) <==> i + 3 <= |s| && s[i..i + 3] == [q, q, q]
  {
  }

  function BlankChar(c: char): char {
    if c == '\n' then '\n' else ' '
  }

  /** The scrubbed form of `s`, read from inside a block opened by three `q`s, or from outside any block. */
  function Scrub(s: string, block: Option<char>): (r: string)
    ensures |r| == |s|
  {
    if s == "" then ""
    else match block
      case None =>
        if TripleAt(s, 0, DOUBLE) then s[..3] + Scrub(s[3..], Some(DOUBLE))
        else if TripleAt(s, 0, SINGLE) then s[..3] + Scrub(s[3..], Some(SINGLE))
        else [s[0]] + Scrub(s[1..], None)
      case Some(q) =>
        if TripleAt(s, 0, q) then s[..3] + Scrub(s[3..], None)
        else [BlankChar(s[0])] + Scrub(s[1..], Some(q))
  }

  predicate OpensAt(s: string, i: nat) {
    TripleAt(s, i, DOUBLE) || TripleAt(s, i, SINGLE)
  }

  /** A delimiter that opens or closes a block, according to whether one is open. */
  predicate DelimiterAt(s: string, i: nat, block: Option<char>) {
    match block
    case None => OpensAt(s, i)
    case Some(q) => TripleAt(s, i, q)
  }

  /** The block that is open after a delimiter at `i`. */
  function Toggle(s: string, i: nat, block: Option<char>): Option<char>
    requires i < |s|
  {
    if block.None? then Some(s[i]) else None
  }

  /** One step of the scan, at position `i` of the whole text. */
  lemma ScrubAt(s: string, i: nat, block: Option<char>)
    requires i < |s|
    ensures DelimiterAt(s, i, block) ==>
              Scrub(s[i..], block) == s[i..i + 3] + Scrub(s[i + 3..], Toggle(s, i, block))
    ensures !DelimiterAt(s, i, block) ==>
              Scrub(s[i..], block) == [if block.None? then s[i] else BlankChar(s[i])] + Scrub(s[i + 1..], block)
  {
    var rest := s[i..];
    assert forall q: char :: TripleAt(s, i, q) <==> TripleAt(rest, 0, q);
    assert rest[1..] == s[i + 1..];
    if DelimiterAt(s, i, block) {
      assert rest[..3] == s[i..i + 3] && rest[3..] == s[i + 3..];
    }
  }

  // ---------------------------------------------------------------------------
  // Which positions are in the body of a block
  // ---------------------------------------------------------------------------

  /** At a position: the block that is open, and how many characters of a delimiter are still to come. */
  datatype Mode = Mode(block: Option<char>, skip: nat)

  function ModeAt(s: string, j: nat): Mode
    requires j <= |s|
  {
    if j == 0 then Mode(None, 0)
    else
      var m := ModeAt(s, j - 1);
      if m.skip > 0 then Mode(m.block, m.skip - 1)
      else if DelimiterAt(s, j - 1, m.block) then Mode(Toggle(s, j - 1, m.block), 2)
      else m
  }

  /** No block is open at the position, nor is it within a delimiter. */
  predicate Outside(s: string, p: nat) {
    p <= |s| && ModeAt(s, p) == Mode(None, 0)
  }

  /** The position is in a block, and not in its delimiters. */
  predicate InBody(s: string, j: nat) {
    j < |s| && var m := ModeAt(s, j); m.skip == 0 && m.block.Some? && !TripleAt(s, j, m.block.value)
  }

  lemma StartIsOutside(s: string)
    ensures Outside(s, 0)
  {
  }

  lemma {:induction false} ModeStays(s: string, p: nat, i: nat)
    requires p <= i <= |s| && ModeAt(s, p).skip == 0
    requires forall j :: p <= j < i ==> !DelimiterAt(s, j, ModeAt(s, p).block)
    ensures ModeAt(s, i) == ModeAt(s, p)
    decreases i
  {
    if p < i {
      ModeStays(s, p, i - 1);
    }
  }

  /** A delimiter is passed as a whole. */
  lemma DelimiterPassed(s: string, i: nat)
    requires i < |s| && ModeAt(s, i).skip == 0 && DelimiterAt(s, i, ModeAt(s, i).block)
    ensures i + 3 <= |s| && ModeAt(s, i + 3) == Mode(Toggle(s, i, ModeAt(s, i).block), 0)
    ensures forall j :: i <= j < i + 3 ==> !InBody(s, j)
  {
    var m := ModeAt(s, i);
    assert ModeAt(s, i + 1) == Mode(Toggle(s, i, m.block), 2);
    assert ModeAt(s, i + 2) == Mode(Toggle(s, i, m.block), 1);
    assert ModeAt(s, i + 3) == Mode(Toggle(s, i, m.block), 0);
  }

  /**
    Outside blocks, the first three quotes of a kind open a block.  Its body goes up
    to the next three of that kind, after which no block is open, or to the end of
    the text; nothing up to the body is in a body, nor are the closing quotes.
   */
  lemma BlockBody(s: string, p: nat, i: nat, k: nat)
    requires Outside(s, p) && p <= i && i + 3 <= k <= |s|
    requires TripleAt(s, i, '\"') || TripleAt(s, i, '\'')
    requires forall j :: p <= j < i ==> !TripleAt(s, j, '\"') && !TripleAt(s, j, '\'')
    requires forall j :: i + 3 <= j < k ==> !TripleAt(s, j, s[i])
    requires k == |s| || TripleAt(s, k, s[i])
    ensures forall j :: p <= j < i + 3 ==> !InBody(s, j)
    ensures forall j :: i + 3 <= j < k ==> InBody(s, j)
    ensures k < |s| ==> Outside(s, k + 3) && forall j :: k <= j < k + 3 ==> !InBody(s, j)
  {
    forall j | p <= j <= i
      ensures ModeAt(s, j) == Mode(None, 0)
    {
      ModeStays(s, p, j);
    }
    DelimiterPassed(s, i);
    forall j | i + 3 <= j <= k
      ensures ModeAt(s, j) == Mode(Some(s[i]), 0)
    {
      ModeStays(s, i + 3, j);
    }
    if k < |s| {
      DelimiterPassed(s, k);
    }
  }

  /** And without such quotes there is no body any more. */
  lemma NoMoreBodies(s: string, p: nat)
    requires Outside(s, p)
    requires forall j :: p <= j < |s| ==> !TripleAt(s, j, '\"') && !TripleAt(s, j, '\'')
    ensures forall j :: p <= j < |s| ==> !InBody(s, j)
  {
    forall j | p <= j < |s|
      ensures !InBody(s, j)
    {
      ModeStays(s, p, j);
    }
  }

  /** The character that belongs at a position of the result. */
  function Shown(s: string, j: nat): char
    requires j < |s|
  {
    if InBody(s, j) && s[j] != '\n' then ' ' else s[j]
  }

  /** The scanning loop. */
  method StripTripleQuoted(text: string) returns (result: string)
    ensures result == Scrub(text, None)
    ensures |result| == |text|
    ensures forall j :: 0 <= j < |text| ==> result[j] == if InBody(text, j) && text[j] != '\n' then ' ' else text[j]
  {
    result := "";
    var i := 0;
    var inBlock: Option<char> := None;
    while i < |text|
      invariant 0 <= i <= |text|
      invariant result + Scrub(text[i..], inBlock) == Scrub(text, None)
      invariant |result| == i && ModeAt(text, i) == Mode(inBlock, 0)
      invariant forall j :: 0 <= j < i ==> result[j] == Shown(text, j)
    {
      ScrubAt(text, i, inBlock);
      if DelimiterAt(text, i, inBlock) {
        DelimiterPassed(text, i);
        Associate(result, text[i..i + 3], Scrub(text[i + 3..], Toggle(text, i, inBlock)));
        result := result + text[i..i + 3];
        inBlock := if inBlock.None? then Some(text[i]) else None;
        i := i + 3;
      } else {
        var c := if inBlock.None? then text[i] else BlankChar(text[i]);
        Associate(result, [c], Scrub(text[i + 1..], inBlock));
        result := result + [c];
        i := i + 1;
      }
    }
  }

  // ---------------------------------------------------------------------------
  // What is kept and what is blanked
  // ---------------------------------------------------------------------------

  function Blank(s: string): (r: string)
    ensures |r| == |s| && forall k :: 0 <= k < |s| ==> r[k] == if s[k] == '\n' then '\n' else ' '
  {
    if s == "" then "" else [BlankChar(s[0])] + Blank(s[1..])
  }

  /** Outside blocks, text up to and including the first opening delimiter is kept as it is. */
  lemma {:induction false} KeptUntilOpening(s: string, i: nat, k: nat)
    requires i <= k && OpensAt(s, k) && forall j :: i <= j < k ==> !OpensAt(s, j)
    ensures Scrub(s[i..], None) == s[i..k + 3] + Scrub(s[k + 3..], Some(s[k]))
    decreases k - i
  {
    ScrubAt(s, i, None);
    if i < k {
      KeptUntilOpening(s, i + 1, k);
      Associate([s[i]], s[i + 1..k + 3], Scrub(s[k + 3..], Some(s[k])));
      assert s[i..k + 3] == [s[i]] + s[i + 1..k + 3];
    }
  }

  /** Text without an opening delimiter is kept as it is. */
  lemma {:induction false} KeptWithoutOpening(s: string, i: nat)
    requires i <= |s| && forall j :: i <= j < |s| ==> !OpensAt(s, j)
    ensures Scrub(s[i..], None) == s[i..]
    decreases |s| - i
  {
    if i < |s| {
      ScrubAt(s, i, None);
      KeptWithoutOpening(s, i + 1);
      assert s[i..] == [s[i]] + s[i + 1..];
    }
  }

  /** Inside a block everything before the first delimiter of the same kind is blanked, and the delimiter is kept. */
  lemma {:induction false} BlankedUntilClosing(s: string, q: char, i: nat, k: nat)
    requires i <= k && TripleAt(s, k, q) && forall j :: i <= j < k ==> !TripleAt(s, j, q)
    ensures Scrub(s[i..], Some(q)) == Blank(s[i..k]) + s[k..k + 3] + Scrub(s[k + 3..], None)
    decreases k - i
  {
    ScrubAt(s, i, Some(q));
    if i < k {
      BlankedUntilClosing(s, q, i + 1, k);
      var c, b, d, rest := [BlankChar(s[i])], Blank(s[i + 1..k]), s[k..k + 3], Scrub(s[k + 3..], None);
      assert s[i..k][1..] == s[i + 1..k];
      assert Blank(s[i..k]) == c + b;
      Associate(c, b + d, rest);
      Associate(c, b, d);
    }
  }

  /** A block that is never closed is blanked to the end, other quotes included. */
  lemma {:induction false} BlankedUnterminated(s: string, q: char, i: nat)
    requires i <= |s| && forall j :: i <= j < |s| ==> !TripleAt(s, j, q)
    ensures Scrub(s[i..], Some(q)) == Blank(s[i..])
    decreases |s| - i
  {
    if i < |s| {
      ScrubAt(s, i, Some(q));
      BlankedUnterminated(s, q, i + 1);
      assert s[i..][1..] == s[i + 1..];
    }
  }

  /** Every character stays or becomes a space, and newlines stay. */
  lemma {:induction false} ScrubChars(s: string, block: Option<char>)
    ensures forall k :: 0 <= k < |s| ==>
              Scrub(s, block)[k] == s[k] || (s[k] != '\n' && Scrub(s, block)[k] == ' ')
    decreases |s|
  {
    var r := Scrub(s, block);
    if s != "" {
      var opens := block.None? && OpensAt(s, 0);
      var closes := block.Some? && TripleAt(s, 0, block.value);
      var n, next := if opens || closes then 3 else 1, if opens then Some(s[0]) else if closes then None else block;
      ScrubChars(s[n..], next);
      forall k | 0 <= k < |s|
        ensures r[k] == s[k] || (s[k] != '\n' && r[k] == ' ')
      {
        if n <= k {
          assert r[k] == Scrub(s[n..], next)[k - n] && s[k] == s[n..][k - n];
        }
      }
    }
  }

  /** Length and the position of every newline survive. */
  lemma NewlinesKept(s: string, block: Option<char>)
    ensures |Scrub(s, block)| == |s|
    ensures forall k :: 0 <= k < |s| ==> (Scrub(s, block)[k] == '\n' <==> s[k] == '\n')
  {
    ScrubChars(s, block);
  }

  /** Blanking can remove a delimiter but never makes one. */
  lemma NoNewTriple(s: string, r: string, q: char)
    requires |r| == |s| && q != ' '
    requires forall k :: 0 <= k < |s| ==> r[k] == s[k] || r[k] == ' '
    requires TripleAt(r, 0, q)
    ensures TripleAt(s, 0, q)
  {
  }

  predicate QuoteOrNone(block: Option<char>) {
    block.None? || block.value == DOUBLE || block.value == SINGLE
  }

  /** Scrubbing again changes nothing. */
  lemma {:induction false} ScrubIdempotent(s: string, block: Option<char>)
    requires QuoteOrNone(block)
    ensures Scrub(Scrub(s, block), block) == Scrub(s, block)
    decreases |s|
  {
    if s != "" {
      var r := Scrub(s, block);
      var opens := block.None? && OpensAt(s, 0);
      var closes := block.Some? && TripleAt(s, 0, block.value);
      if opens || closes {
        var next := if opens then Some(s[0]) else None;
        ScrubIdempotent(s[3..], next);
        assert r[..3] == s[..3] && r[3..] == Scrub(s[3..], next);
      } else {
        ScrubIdempotent(s[1..], block);
        assert r[1..] == Scrub(s[1..], block);
        ScrubStays(s, block);
      }
    }
  }

  /** A position that is not a delimiter does not become one. */
  lemma ScrubStays(s: string, block: Option<char>)
    requires s != "" && QuoteOrNone(block)
    ensures block.None? && !OpensAt(s, 0) ==> !OpensAt(Scrub(s, block), 0)
    ensures block.Some? && !TripleAt(s, 0, block.value) ==> !TripleAt(Scrub(s, block), 0, block.value)
  {
    var r := Scrub(s, block);
    ScrubChars(s, block);
    if block.None? {
      if TripleAt(r, 0, DOUBLE) {
        NoNewTriple(s, r, DOUBLE);
      }
      if TripleAt(r, 0, SINGLE) {
        NoNewTriple(s, r, SINGLE);
      }
    } else if TripleAt(r, 0, block.value) {
      NoNewTriple(s, r, block.value);
    }
  }
}
