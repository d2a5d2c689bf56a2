/** Python string operations that several modules need. */
module Text {
  /** The characters that `str.strip` removes. */
  predicate IsSpace(c: char) {
    || '\t' <= c <= '\r'
    || '\U{1c}' <= c <= ' '
    || c == '\U{85}' || c == '\U{a0}' || c == '\U{1680}'
    || '\U{2000}' <= c <= '\U{200a}'
    || c == '\U{2028}' || c == '\U{2029}' || c == '\U{202f}' || c == '\U{205f}' || c == '\U{3000}'
  }

  /** `str.lower`, on ASCII letters. */
  function Lower(c: char): char {
    if 'A' <= c <= 'Z' then c + 32 as char else c
  }

  predicate IsBlank(s: string) {
    forall i :: 0 <= i < |s| ==> IsSpace(s[i])
  }

  function StripLeft(s: string): string {
    if s != "" && IsSpace(s[0]) then StripLeft(s[1..]) else s
  }

  function StripRight(s: string): string {
    if s != "" && IsSpace(s[|s| - 1]) then StripRight(s[..|s| - 1]) else s
  }

  function Strip(s: string): string {
    StripRight(StripLeft(s))
  }

  /** Stripping leaves nothing of a blank string and something of every other. */
  lemma StripNonBlank(s: string)
    ensures Strip(s) == "" <==> IsBlank(s)
  {
    StripLeftKeeps(s);
    StripRightKeeps(StripLeft(s));
  }

  lemma {:induction false} StripLeftKeeps(s: string)
    ensures IsBlank(StripLeft(s)) <==> IsBlank(s)
    decreases |s|
  {
    if s != "" && IsSpace(s[0]) {
      StripLeftKeeps(s[1..]);
      assert forall i :: 1 <= i < |s| ==> s[i] == s[1..][i - 1];
    }
  }

  lemma {:induction false} StripRightKeeps(s: string)
    ensures StripRight(s) == "" <==> IsBlank(s)
    decreases |s|
  {
    if s != "" && IsSpace(s[|s| - 1]) {
      StripRightKeeps(s[..|s| - 1]);
      assert forall i :: 0 <= i < |s| - 1 ==> s[i] == s[..|s| - 1][i];
    }
  }

  /** Tabs, line breaks and blanks are spaces; no visible ASCII character is. */
  lemma AsciiSpaces(c: char)
    requires c < '\U{7f}'
    ensures IsSpace(c) <==> '\t' <= c <= '\r' || '\U{1c}' <= c <= ' '
  {
  }

  /** What is left has no space at either end, and only spaces have been taken away. */
  lemma StripIs(s: string) returns (before: string, after: string)
    ensures s == before + Strip(s) + after && IsBlank(before) && IsBlank(after)
    ensures Strip(s) != "" ==> !IsSpace(Strip(s)[0]) && !IsSpace(Strip(s)[|Strip(s)| - 1])
  {
    before := StripLeftIs(s);
    after := StripRightIs(StripLeft(s));
    assert before + (Strip(s) + after) == before + Strip(s) + after;
  }

  lemma Longer(c: char, s: string)
    requires IsSpace(c) && IsBlank(s)
    ensures IsBlank([c] + s) && IsBlank(s + [c])
  {
  }

  lemma {:induction false} StripLeftIs(s: string) returns (before: string)
    ensures s == before + StripLeft(s) && IsBlank(before)
    ensures StripLeft(s) != "" ==> !IsSpace(StripLeft(s)[0])
    decreases |s|
  {
    if s != "" && IsSpace(s[0]) {
      var c, tail := s[0], s[1..];
      var rest := StripLeftIs(tail);
      before := [c] + rest;
      Longer(c, rest);
      assert s == [c] + tail && [c] + (rest + StripLeft(tail)) == before + StripLeft(tail);
    } else {
      before := "";
      assert s == before + s;
    }
  }

  lemma {:induction false} StripRightIs(s: string) returns (after: string)
    ensures s == StripRight(s) + after && IsBlank(after)
    ensures StripRight(s) != "" ==> StripRight(s)[0] == s[0] && !IsSpace(StripRight(s)[|StripRight(s)| - 1])
    decreases |s|
  {
    if s != "" && IsSpace(s[|s| - 1]) {
      var init, c := s[..|s| - 1], s[|s| - 1];
      var rest := StripRightIs(init);
      after := rest + [c];
      Longer(c, rest);
      assert s == init + [c] && (StripRight(init) + rest) + [c] == StripRight(init) + after;
    } else {
      after := "";
      assert s == s + after;
    }
  }
}
