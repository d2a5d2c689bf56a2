/**
  Case-insensitive literal substitution of a tag for a subject, and exactly
  when it leaves no occurrence of the subject behind.  Case folding is ASCII.
 */
module Substitution {
  import opened Text

  /** `s` occurs in `v` at position `i`, ignoring case. */
  predicate MatchAt(v: string, i: nat, s: string) {
    i + |s| <= |v| && forall k :: 0 <= k < |s| ==> Lower(v[i + k]) == Lower(s[k])
  }

  predicate Contains(v: string, s: string) {
    exists i :: 0 <= i <= |v| && MatchAt(v, i, s)
  }

  /** Every leftmost, non-overlapping occurrence of `s` replaced by the tag. */
  function Substitute(v: string, s: string, tag: string): string
    requires s != ""
  {
    if |v| < |s| then v
    else if MatchAt(v, 0, s) then tag + Substitute(v[|s|..], s, tag)
    else [v[0]] + Substitute(v[1..], s, tag)
  }

  /** The same letter, in whatever case, or the same character. */
  predicate SameButCase(c: char, d: char) {
    || c == d
    || ('A' <= c <= 'Z' && d as int == c as int + 32)
    || ('A' <= d <= 'Z' && c as int == d as int + 32)
  }

  /** Case does not matter to what is mentioned, whether in the text or in the subject; everything else does. */
  lemma MatchIgnoresCase(v: string, i: nat, s: string)
    ensures MatchAt(v, i, s) <==> i + |s| <= |v| && forall k :: 0 <= k < |s| ==> SameButCase(v[i + k], s[k])
  {
  }

  // ---------------------------------------------------------------------------
  // When a tag can complete a new occurrence
  // ---------------------------------------------------------------------------

  /** `s`, laid over the tag from offset `o` on, agrees with what it covers of it and sticks out at the end. */
  predicate SticksOut(s: string, tag: string, o: nat) {
    && o < |tag| < o + |s|
    && forall k :: 0 <= k < |tag| - o ==> Lower(tag[o + k]) == Lower(s[k])
  }

  /** `s` begins `a` characters in front of the tag and agrees with what it covers of it. */
  predicate LeadsIn(s: string, tag: string, a: nat) {
    0 < a < |s| && forall k :: a <= k < |s| && k - a < |tag| ==> Lower(tag[k - a]) == Lower(s[k])
  }

  /** Those `a` characters can stand before an occurrence of `s` without making an earlier one. */
  predicate FreeBefore(s: string, a: nat)
    requires a <= |s|
  {
    forall p :: 0 <= p < a ==> !MatchAt(s[..a] + s, p, s)
  }

  /** Some text around a tag can complete a new occurrence of `s`. */
  predicate CanReform(s: string, tag: string) {
    || (exists o :: 0 <= o < |tag| && SticksOut(s, tag, o))
    || (exists a :: 0 < a < |s| && LeadsIn(s, tag, a) && FreeBefore(s, a))
  }

  lemma MatchTail(v: string, i: nat, s: string)
    requires i > 0 && v != ""
    ensures MatchAt(v, i, s) <==> MatchAt(v[1..], i - 1, s)
  {
    if MatchAt(v[1..], i - 1, s) {
      forall k | 0 <= k < |s|
        ensures Lower(v[i + k]) == Lower(s[k])
      {
        assert v[1..][i - 1 + k] == v[i + k];
      }
    }
  }

  /** Matches after a prefix are those of the rest. */
  lemma MatchAfter(u: string, v: string, i: nat, s: string)
    requires i >= |u|
    ensures MatchAt(u + v, i, s) <==> MatchAt(v, i - |u|, s)
  {
    if MatchAt(u + v, i, s) {
      forall k | 0 <= k < |s|
        ensures Lower(v[i - |u| + k]) == Lower(s[k])
      {
        assert (u + v)[i + k] == v[i - |u| + k];
      }
    }
  }

  lemma MatchBefore(u: string, v: string, i: nat, s: string)
    requires MatchAt(u, i, s)
    ensures MatchAt(u + v, i, s)
  {
    forall k | 0 <= k < |s|
      ensures Lower((u + v)[i + k]) == Lower(s[k])
    {
      assert (u + v)[i + k] == u[i + k];
    }
  }

  /** Without an occurrence at the first `a` positions, that much text is kept. */
  lemma {:induction false} KeptText(v: string, s: string, tag: string, a: nat)
    requires s != "" && a <= |v| && forall p :: 0 <= p < a ==> !MatchAt(v, p, s)
    ensures Substitute(v, s, tag) == v[..a] + Substitute(v[a..], s, tag)
    decreases a
  {
    if a == 0 {
      assert v[0..] == v;
    } else if |v| < |s| {
      assert v == v[..a] + v[a..];
    } else {
      forall p | 0 <= p < a - 1
        ensures !MatchAt(v[1..], p, s)
      {
        MatchTail(v, p + 1, s);
      }
      KeptText(v[1..], s, tag, a - 1);
      assert v[1..][a - 1..] == v[a..];
      assert v[..a] == [v[0]] + v[1..][..a - 1];
    }
  }

  lemma {:induction false} FirstMatch(v: string, s: string, i: nat) returns (a: nat)
    requires MatchAt(v, i, s)
    ensures a <= i && MatchAt(v, a, s) && forall p :: 0 <= p < a ==> !MatchAt(v, p, s)
    decreases i
  {
    if p :| 0 <= p < i && MatchAt(v, p, s) {
      a := FirstMatch(v, s, p);
    } else {
      a := i;
    }
  }

  lemma Untouched(v: string, s: string, tag: string)
    requires s != "" && !Contains(v, s)
    ensures Substitute(v, s, tag) == v
  {
    KeptText(v, s, tag, |v|);
    assert v[|v|..] == "" && v[..|v|] == v;
  }

  /** The text up to the first occurrence, the tag, and the rest. */
  lemma SplitAtFirst(v: string, s: string, tag: string, a: nat)
    requires s != "" && MatchAt(v, a, s) && forall p :: 0 <= p < a ==> !MatchAt(v, p, s)
    ensures Substitute(v, s, tag) == v[..a] + (tag + Substitute(v[a + |s|..], s, tag))
  {
    KeptText(v, s, tag, a);
    assert v == v[..a] + v[a..];
    MatchAfter(v[..a], v[a..], a, s);
    assert v[a..][|s|..] == v[a + |s|..];
  }

  // ---------------------------------------------------------------------------
  // Nothing is left behind unless the tag can take part in it
  // ---------------------------------------------------------------------------

  /** An occurrence that begins in text that was kept, just before a tag. */
  lemma BeginsBefore(v: string, s: string, tag: string, a: nat, rest: string)
    requires s != "" && MatchAt(v, a, s) && forall p :: 0 <= p < a ==> !MatchAt(v, p, s)
    requires a > 0 && MatchAt(v[..a] + (tag + rest), 0, s)
    ensures a < |s| && LeadsIn(s, tag, a) && FreeBefore(s, a)
  {
    var r := v[..a] + (tag + rest);
    if |s| <= a {
      forall k | 0 <= k < |s|
        ensures Lower(v[0 + k]) == Lower(s[k])
      {
        assert r[0 + k] == v[k];
      }
      assert MatchAt(v, 0, s);
    }
    forall k | a <= k < |s| && k - a < |tag|
      ensures Lower(tag[k - a]) == Lower(s[k])
    {
      assert r[0 + k] == tag[k - a];
    }
    forall k | 0 <= k < a
      ensures Lower(v[k]) == Lower(s[k])
    {
      assert r[0 + k] == v[k];
    }
    forall p | 0 <= p < a
      ensures !MatchAt(s[..a] + s, p, s)
    {
      NoEarlierMatch(v, s, a, p);
    }
  }

  /** What stands before an occurrence of `s` in `v`, ignoring case, stands there in `s[..a] + s` too. */
  lemma NoEarlierMatch(v: string, s: string, a: nat, p: nat)
    requires p < a < |s| && MatchAt(v, a, s) && !MatchAt(v, p, s)
    requires forall k :: 0 <= k < a ==> Lower(v[k]) == Lower(s[k])
    ensures !MatchAt(s[..a] + s, p, s)
  {
    var u := s[..a] + s;
    forall k | 0 <= k < a + |s|
      ensures Lower(u[k]) == Lower(v[k])
    {
      if k >= a {
        assert Lower(v[a + (k - a)]) == Lower(s[k - a]);
      }
    }
    var k :| 0 <= k < |s| && Lower(v[p + k]) != Lower(s[k]);
    assert Lower(u[p + k]) != Lower(s[k]);
  }

  lemma NoMatchAfter(v: string, s: string, i: nat, a: nat)
    requires i <= a <= |v| && forall p :: 0 <= p < a ==> !MatchAt(v, p, s)
    ensures forall p :: 0 <= p < a - i ==> !MatchAt(v[i..], p, s)
  {
    assert v == v[..i] + v[i..];
    forall p | 0 <= p < a - i
      ensures !MatchAt(v[i..], p, s)
    {
      MatchAfter(v[..i], v[i..], p + i, s);
    }
  }

  /** The same for one that begins later in that text. */
  lemma BeginsInText(v: string, s: string, tag: string, i: nat, a: nat, rest: string)
    requires s != "" && MatchAt(v, a, s) && forall p :: 0 <= p < a ==> !MatchAt(v, p, s)
    requires i < a && MatchAt(v[..a] + (tag + rest), i, s)
    ensures CanReform(s, tag)
  {
    var u, w := v[..i], v[i..];
    assert v == u + w;
    MatchAfter(u, w, a, s);
    NoMatchAfter(v, s, i, a);
    assert v[..a] + (tag + rest) == u + (w[..a - i] + (tag + rest));
    MatchAfter(u, w[..a - i] + (tag + rest), i, s);
    BeginsBefore(w, s, tag, a - i, rest);
  }

  /** An occurrence that begins in a tag lies inside it or sticks out of it. */
  lemma BeginsInside(s: string, tag: string, rest: string, i: nat)
    requires s != "" && i < |tag| && MatchAt(tag + rest, i, s)
    ensures Contains(tag, s) || SticksOut(s, tag, i)
  {
    forall k | 0 <= k < |s| && i + k < |tag|
      ensures Lower(tag[i + k]) == Lower(s[k])
    {
      assert (tag + rest)[i + k] == tag[i + k];
    }
    if i + |s| <= |tag| {
      assert MatchAt(tag, i, s);
    }
  }

  lemma BeginsAfter(tag: string, rest: string, s: string, i: nat)
    requires i >= |tag| && MatchAt(tag + rest, i, s)
    ensures MatchAt(rest, i - |tag|, s)
  {
    MatchAfter(tag, rest, i, s);
  }

  lemma {:induction false} NothingLeft(v: string, s: string, tag: string, i: nat)
    requires s != "" && MatchAt(Substitute(v, s, tag), i, s)
    ensures Contains(tag, s) || CanReform(s, tag)
    decreases |v|
  {
    if Contains(v, s) {
      var first :| 0 <= first <= |v| && MatchAt(v, first, s);
      var a := FirstMatch(v, s, first);
      SplitAtFirst(v, s, tag, a);
      LeftOver(v, s, tag, i, a);
    } else {
      Untouched(v, s, tag);
    }
  }

  lemma {:induction false} LeftOver(v: string, s: string, tag: string, i: nat, a: nat)
    requires s != "" && MatchAt(v, a, s) && forall p :: 0 <= p < a ==> !MatchAt(v, p, s)
    requires MatchAt(v[..a] + (tag + Substitute(v[a + |s|..], s, tag)), i, s)
    ensures Contains(tag, s) || CanReform(s, tag)
    decreases |v|, 0
  {
    var rest := Substitute(v[a + |s|..], s, tag);
    if i < a {
      BeginsInText(v, s, tag, i, a, rest);
    } else {
      MatchAfter(v[..a], tag + rest, i, s);
      if i - a < |tag| {
        BeginsInside(s, tag, rest, i - a);
      } else {
        BeginsAfter(tag, rest, s, i - a);
        NothingLeft(v[a + |s|..], s, tag, i - a - |tag|);
      }
    }
  }

  // ---------------------------------------------------------------------------
  // And if it can, something is
  // ---------------------------------------------------------------------------

  lemma StickingOutSurvives(s: string, tag: string, o: nat)
    requires s != "" && SticksOut(s, tag, o)
    ensures Contains(Substitute(s + s[|tag| - o..], s, tag), s)
  {
    var tail := s[|tag| - o..];
    var v := s + tail;
    assert MatchAt(v, 0, s);
    assert v[|s|..] == tail && Substitute(tail, s, tag) == tail;
    var r := tag + tail;
    forall k | 0 <= k < |s|
      ensures Lower(r[o + k]) == Lower(s[k])
    {
      assert r[o + k] == if k < |tag| - o then tag[o + k] else s[k];
    }
    assert MatchAt(r, o, s);
  }

  /** What of the subject a tag laid over it from `a` on does not cover. */
  function Uncovered(s: string, tag: string, a: nat): string {
    if a + |tag| < |s| then s[a + |tag|..] else ""
  }

  lemma LeadingInMatches(s: string, tag: string, a: nat)
    requires LeadsIn(s, tag, a)
    ensures MatchAt(s[..a] + (tag + Uncovered(s, tag, a)), 0, s)
  {
    var r := s[..a] + (tag + Uncovered(s, tag, a));
    forall k | 0 <= k < |s|
      ensures Lower(r[0 + k]) == Lower(s[k])
    {
      if k >= a {
        assert r[k] == if k - a < |tag| then tag[k - a] else s[k];
      }
    }
  }

  lemma FreeInFront(s: string, a: nat, tail: string, p: nat)
    requires p < a < |s| && FreeBefore(s, a)
    ensures !MatchAt(s[..a] + (s + tail), p, s)
  {
    var u, v := s[..a] + s, s[..a] + (s + tail);
    assert !MatchAt(u, p, s) && p + |s| <= |u|;
    var k :| 0 <= k < |s| && Lower(u[p + k]) != Lower(s[k]);
    assert v[p + k] == u[p + k];
  }

  lemma LeadingInSurvives(s: string, tag: string, a: nat)
    requires LeadsIn(s, tag, a) && FreeBefore(s, a)
    ensures Contains(Substitute(s[..a] + (s + Uncovered(s, tag, a)), s, tag), s)
  {
    var tail := Uncovered(s, tag, a);
    var v := s[..a] + (s + tail);
    assert MatchAt(s + tail, 0, s);
    MatchAfter(s[..a], s + tail, a, s);
    forall p | 0 <= p < a
      ensures !MatchAt(v, p, s)
    {
      FreeInFront(s, a, tail, p);
    }
    SplitAtFirst(v, s, tag, a);
    assert v[a + |s|..] == tail && v[..a] == s[..a];
    LeadingInMatches(s, tag, a);
  }

  lemma TagSurvives(s: string, tag: string)
    requires s != "" && Contains(tag, s)
    ensures Contains(Substitute(s, s, tag), s)
  {
    assert MatchAt(s, 0, s);
    assert s[|s|..] == "" && Substitute("", s, tag) == "";
    assert tag + "" == tag;
  }

  /** No text mentions the subject after substitution. */
  ghost predicate Erases(s: string, tag: string)
    requires s != ""
  {
    forall v :: !Contains(Substitute(v, s, tag), s)
  }

  lemma ClearErases(s: string, tag: string)
    requires s != "" && !Contains(tag, s) && !CanReform(s, tag)
    ensures Erases(s, tag)
  {
    forall v
      ensures !Contains(Substitute(v, s, tag), s)
    {
      if i :| 0 <= i <= |Substitute(v, s, tag)| && MatchAt(Substitute(v, s, tag), i, s) {
        NothingLeft(v, s, tag, i);
      }
    }
  }

  /** A text in which the subject survives. */
  lemma Survivor(s: string, tag: string) returns (v: string)
    requires s != "" && (Contains(tag, s) || CanReform(s, tag))
    ensures Contains(Substitute(v, s, tag), s)
  {
    if Contains(tag, s) {
      v := s;
      TagSurvives(s, tag);
    } else if o: nat :| o < |tag| && SticksOut(s, tag, o) {
      v := s + s[|tag| - o..];
      StickingOutSurvives(s, tag, o);
    } else {
      var a: nat :| 0 < a < |s| && LeadsIn(s, tag, a) && FreeBefore(s, a);
      v := s[..a] + (s + Uncovered(s, tag, a));
      LeadingInSurvives(s, tag, a);
    }
  }

  /**
    Substitution erases a subject from every text if and only if the tag does
    not contain it and cannot complete a new occurrence of it.
   */
  lemma AlwaysErased(s: string, tag: string)
    requires s != ""
    ensures Erases(s, tag) <==> !Contains(tag, s) && !CanReform(s, tag)
  {
    if !Contains(tag, s) && !CanReform(s, tag) {
      ClearErases(s, tag);
    } else {
      var v := Survivor(s, tag);
    }
  }

  /** Where there was an occurrence there is now a tag. */
  lemma TagShows(v: string, s: string, tag: string)
    requires s != "" && Contains(v, s) && Contains(tag, s)
    ensures Contains(Substitute(v, s, tag), s)
  {
    var first :| 0 <= first <= |v| && MatchAt(v, first, s);
    var a := FirstMatch(v, s, first);
    SplitAtFirst(v, s, tag, a);
    var i :| 0 <= i <= |tag| && MatchAt(tag, i, s);
    MatchInside(v[..a], tag, Substitute(v[a + |s|..], s, tag), i, s);
  }

  lemma MatchInside(u: string, tag: string, rest: string, i: nat, s: string)
    requires MatchAt(tag, i, s)
    ensures Contains(u + (tag + rest), s)
  {
    MatchBefore(tag, rest, i, s);
    MatchAfter(u, tag + rest, |u| + i, s);
    assert MatchAt(u + (tag + rest), |u| + i, s);
  }

  /** The tag contains the subject, or cannot complete a new occurrence of it. */
  predicate TagDecides(s: string, tag: string) {
    Contains(tag, s) || !CanReform(s, tag)
  }

  /** For such a subject, what is returned mentions it exactly when the text did and the tag does. */
  lemma SubstituteContains(v: string, s: string, tag: string)
    requires s != "" && TagDecides(s, tag)
    ensures Contains(Substitute(v, s, tag), s) <==> Contains(v, s) && Contains(tag, s)
  {
    if i :| 0 <= i <= |Substitute(v, s, tag)| && MatchAt(Substitute(v, s, tag), i, s) {
      NothingLeft(v, s, tag, i);
      if !Contains(v, s) {
        Untouched(v, s, tag);
      }
    }
    if Contains(v, s) && Contains(tag, s) {
      TagShows(v, s, tag);
    }
  }

  /** And for no other subject. */
  lemma TagDecidesIff(s: string, tag: string)
    requires s != ""
    ensures (forall v :: Contains(Substitute(v, s, tag), s) <==> Contains(v, s) && Contains(tag, s)) <==>
              TagDecides(s, tag)
  {
    if TagDecides(s, tag) {
      forall v
        ensures Contains(Substitute(v, s, tag), s) <==> Contains(v, s) && Contains(tag, s)
      {
        SubstituteContains(v, s, tag);
      }
    } else {
      var v := Survivor(s, tag);
      assert !(Contains(Substitute(v, s, tag), s) <==> Contains(v, s) && Contains(tag, s));
    }
  }

  // ---------------------------------------------------------------------------
  // Bracketed tags
  // ---------------------------------------------------------------------------

  /** The tag stands between square brackets. */
  predicate Bracketed(tag: string) {
    |tag| >= 2 && tag[0] == '[' && tag[|tag| - 1] == ']'
  }

  predicate NoBrackets(s: string) {
    forall k :: 0 <= k < |s| ==> s[k] != '[' && s[k] != ']'
  }

  lemma LowerFixesBrackets(c: char)
    ensures Lower(c) == Lower('[') ==> c == '['
    ensures Lower(c) == Lower(']') ==> c == ']'
  {
  }

  /** A subject without square brackets cannot be completed by a bracketed tag. */
  lemma NoBracketsNoReform(s: string, tag: string)
    requires Bracketed(tag) && NoBrackets(s)
    ensures !CanReform(s, tag)
  {
    forall o: nat | o < |tag|
      ensures !SticksOut(s, tag, o)
    {
      var k := |tag| - 1 - o;
      if k < |s| {
        LowerFixesBrackets(s[k]);
        assert Lower(tag[o + k]) != Lower(s[k]);
      }
    }
    forall a: nat | 0 < a < |s|
      ensures !LeadsIn(s, tag, a)
    {
      LowerFixesBrackets(s[a]);
      assert Lower(tag[a - a]) != Lower(s[a]);
    }
  }
}
