/** `make_ulid`: Crockford base 32 of a 48-bit millisecond clock and 80 random bits. */
module Ulid {
  import opened PlanValidation

  const B32: string := "0123456789ABCDEFGHJKMNPQRSTVWXYZ"

  const TIME_CHARS: nat := 10
  const RANDOM_CHARS: nat := 16

  function Pow32(n: nat): (p: nat)
    ensures p > 0
  {
    if n == 0 then 1 else 32 * Pow32(n - 1)
  }

  /** The last `n` base-32 digits of `v`, most significant first. */
  function Encode(v: nat, n: nat): (s: string)
    ensures |s| == n
    ensures forall i :: 0 <= i < n ==> s[i] in B32
  {
    if n == 0 then "" else Encode(v / 32, n - 1) + [B32[v % 32]]
  }

  /** The value of a character of the alphabet. */
  function Value(c: char): (d: nat)
    requires c in B32
    ensures d < 32 && B32[d] == c
  {
    IndexIn(B32, c)
  }

  function IndexIn(s: string, c: char): (d: nat)
    requires c in s
    ensures d < |s| && s[d] == c
  {
    if s[|s| - 1] == c then |s| - 1 else IndexIn(s[..|s| - 1], c)
  }

  function Decode(s: string): nat
    requires forall i :: 0 <= i < |s| ==> s[i] in B32
  {
    if s == "" then 0 else 32 * Decode(s[..|s| - 1]) + Value(s[|s| - 1])
  }

  function Reverse(s: string): (r: string)
    ensures |r| == |s|
  {
    if s == "" then "" else Reverse(s[1..]) + [s[0]]
  }

  /** The digit loop, which yields the least significant digit first, and the reversal after it. */
  method EncodeLoop(v: nat, n: nat) returns (s: string)
    ensures s == Encode(v, n)
  {
    var rest, chars := v, "";
    for i := 0 to n
      invariant |chars| == i
      invariant Encode(v, n) == Encode(rest, n - i) + Reverse(chars)
    {
      DigitTurn(rest, n - i, chars);
      chars := chars + [B32[rest % 32]];
      rest := rest / 32;
    }
    assert Encode(rest, 0) == "";
    s := Reverse(chars);
  }

  lemma {:induction false} ReverseSnoc(s: string, c: char)
    ensures Reverse(s + [c]) == [c] + Reverse(s)
    decreases |s|
  {
    if s != "" {
      ReverseSnoc(s[1..], c);
      assert (s + [c])[1..] == s[1..] + [c];
    } else {
      assert s + [c] == [c];
      assert [c][1..] == "";
    }
  }

  /** Moving one digit from the number to the characters does not change what they spell together. */
  lemma DigitTurn(rest: nat, m: nat, chars: string)
    requires m > 0
    ensures Encode(rest, m) + Reverse(chars) == Encode(rest / 32, m - 1) + Reverse(chars + [B32[rest % 32]])
  {
    var c := B32[rest % 32];
    ReverseSnoc(chars, c);
    assert Encode(rest, m) == Encode(rest / 32, m - 1) + [c];
    assert Encode(rest / 32, m - 1) + [c] + Reverse(chars) == Encode(rest / 32, m - 1) + ([c] + Reverse(chars));
  }

  method MakeUlid(ms: nat, random: nat) returns (s: string)
    ensures s == UlidOf(ms, random)
  {
    var time := EncodeLoop(ms, TIME_CHARS);
    var rand := EncodeLoop(random, RANDOM_CHARS);
    s := time + rand;
  }

  lemma ValueOfDigit(d: nat)
    requires d < 32
    ensures Value(B32[d]) == d
  {
    var e := Value(B32[d]);
    assert B32[e] == B32[d];
    AlphabetAscends(d, e);
    AlphabetAscends(e, d);
  }

  /** The alphabet is in character order. */
  lemma AlphabetAscends(d: nat, e: nat)
    requires d < 32 && e < 32
    ensures d < e ==> B32[d] < B32[e]
  {
    if d < e {
      AlphabetStep(d, e);
    }
  }

  lemma {:induction false} AlphabetStep(d: nat, e: nat)
    requires d < e < 32
    ensures B32[d] < B32[e]
    decreases e
  {
    assert B32[e - 1] < B32[e];
    if d < e - 1 {
      AlphabetStep(d, e - 1);
    }
  }

  /** Decoding recovers exactly the digits that fit. */
  lemma {:induction false} DecodeEncode(v: nat, n: nat)
    ensures Decode(Encode(v, n)) == v % Pow32(n)
    decreases n
  {
    if n > 0 {
      var s := Encode(v, n);
      DecodeEncode(v / 32, n - 1);
      assert s[..|s| - 1] == Encode(v / 32, n - 1);
      ValueOfDigit(v % 32);
      ModStep(v, Pow32(n - 1));
    }
  }

  lemma ModStep(v: nat, m: nat)
    requires m > 0
    ensures v % (32 * m) == 32 * ((v / 32) % m) + v % 32
  {
    var q, r := (v / 32) / m, (v / 32) % m;
    var rest := 32 * r + v % 32;
    assert v / 32 == q * m + r;
    assert v == (32 * m) * q + rest by {
      assert v == 32 * (v / 32) + v % 32;
      assert 32 * (q * m + r) == (32 * m) * q + 32 * r;
    }
    assert 0 <= rest < 32 * m by {
      assert r <= m - 1;
      assert 32 * r <= 32 * (m - 1);
    }
    DivUnique(v, 32 * m, q, rest);
  }

  lemma DivUnique(v: nat, m: nat, q: nat, r: nat)
    requires m > 0 && v == m * q + r && r < m
    ensures v % m == r
  {
    var k := v / m;
    assert v == m * k + v % m;
    if k < q {
      MulMonotone(m, k + 1, q);
    } else if q < k {
      MulMonotone(m, q + 1, k);
    }
  }

  lemma MulMonotone(m: nat, a: nat, b: nat)
    requires a <= b
    ensures m * a <= m * b
  {
  }

  // ---------------------------------------------------------------------------
  // What a ULID promises
  // ---------------------------------------------------------------------------

  /** Python's order on strings of equal length. */
  predicate Less(s: string, t: string)
    requires |s| == |t|
  {
    s != "" && (s[0] < t[0] || (s[0] == t[0] && Less(s[1..], t[1..])))
  }

  lemma {:induction false} LessSplit(s: string, s': string, t: string, t': string)
    requires |s| == |t| && |s'| == |t'|
    ensures Less(s + s', t + t') <==> Less(s, t) || (s == t && Less(s', t'))
    decreases |s|
  {
    if s == "" {
      assert s + s' == s' && t + t' == t';
    } else {
      LessSplit(s[1..], s', t[1..], t');
      assert (s + s')[1..] == s[1..] + s' && (t + t')[1..] == t[1..] + t';
      assert s == [s[0]] + s[1..] && t == [t[0]] + t[1..];
    }
  }

  lemma LessDigit(d: nat, e: nat)
    requires d < 32 && e < 32
    ensures Less([B32[d]], [B32[e]]) <==> d < e
  {
    AlphabetAscends(d, e);
    AlphabetAscends(e, d);
    assert [B32[d]][1..] == "";
  }

  lemma ModFits(v: nat, m: nat)
    requires m > 0
    ensures v % m == v <==> v < m
  {
    if v < m {
      DivUnique(v, m, 0, v);
    }
  }

  lemma DecodeFits(v: nat, n: nat)
    ensures Decode(Encode(v, n)) == v <==> v < Pow32(n)
  {
    DecodeEncode(v, n);
    ModFits(v, Pow32(n));
  }

  lemma EncodeInjective(v: nat, w: nat, n: nat)
    requires v < Pow32(n) && w < Pow32(n)
    ensures Encode(v, n) == Encode(w, n) <==> v == w
  {
    DecodeFits(v, n);
    DecodeFits(w, n);
  }

  lemma OneDigitLess(v: nat, m: nat)
    requires v < 32 * m
    ensures v / 32 < m
  {
  }

  lemma DigitOrder(v: nat, w: nat)
    ensures v < w <==> v / 32 < w / 32 || (v / 32 == w / 32 && v % 32 < w % 32)
  {
  }

  lemma LessWithDigit(s: string, d: nat, t: string, e: nat)
    requires |s| == |t| && d < 32 && e < 32
    ensures Less(s + [B32[d]], t + [B32[e]]) <==> Less(s, t) || (s == t && d < e)
  {
    LessSplit(s, [B32[d]], t, [B32[e]]);
    LessDigit(d, e);
  }

  lemma OrderStep(v: nat, w: nat, s: string, t: string)
    requires |s| == |t| && (Less(s, t) <==> v / 32 < w / 32) && (s == t <==> v / 32 == w / 32)
    ensures Less(s + [B32[v % 32]], t + [B32[w % 32]]) <==> v < w
  {
    LessWithDigit(s, v % 32, t, w % 32);
    DigitOrder(v, w);
  }

  lemma RestFits(v: nat, n: nat)
    requires n > 0 && v < Pow32(n)
    ensures v / 32 < Pow32(n - 1)
  {
    OneDigitLess(v, Pow32(n - 1));
  }

  /** Within range, encodings are ordered as strings exactly as the values are. */
  lemma {:induction false} EncodeOrder(v: nat, w: nat, n: nat)
    requires v < Pow32(n) && w < Pow32(n)
    ensures Less(Encode(v, n), Encode(w, n)) <==> v < w
    decreases n
  {
    if n > 0 {
      RestFits(v, n);
      RestFits(w, n);
      EncodeOrder(v / 32, w / 32, n - 1);
      EncodeInjective(v / 32, w / 32, n - 1);
      OrderStep(v, w, Encode(v / 32, n - 1), Encode(w / 32, n - 1));
    }
  }

  lemma Pow32Values()
    ensures Pow32(TIME_CHARS) == 0x4_0000_0000_0000
    ensures Pow32(RANDOM_CHARS) == 0x1_0000_0000_0000_0000_0000
  {
    assert Pow32(5) == 0x200_0000;
    assert Pow32(10) == 0x200_0000 * 0x200_0000;
    assert Pow32(15) == 0x200_0000 * 0x200_0000 * 0x200_0000;
  }

  /** The string for a clock reading and 80 random bits. */
  function UlidOf(ms: nat, random: nat): string {
    Encode(ms, TIME_CHARS) + Encode(random, RANDOM_CHARS)
  }

  /** The alphabet of Crockford's base 32: the digits, and the capitals without I, L, O and U. */
  lemma AlphabetIsCrockford(c: char)
    ensures c in B32 <==> ('0' <= c <= '9' || 'A' <= c <= 'Z') && c != 'I' && c != 'L' && c != 'O' && c != 'U'
  {
    if c in B32 {
      var i :| 0 <= i < 32 && B32[i] == c;
      NoOtherDigits(i);
    }
    if ('0' <= c <= '9' || 'A' <= c <= 'Z') && c != 'I' && c != 'L' && c != 'O' && c != 'U' {
      AllDigits(c);
    }
  }

  lemma NoOtherDigits(i: nat)
    requires i < 32
    ensures '0' <= B32[i] <= '9' || 'A' <= B32[i] <= 'Z'
    ensures B32[i] != 'I' && B32[i] != 'L' && B32[i] != 'O' && B32[i] != 'U'
  {
    assert forall k :: 0 <= k < 32 ==>
        ('0' <= B32[k] <= '9' || 'A' <= B32[k] <= 'Z')
        && B32[k] != 'I' && B32[k] != 'L' && B32[k] != 'O' && B32[k] != 'U';
  }

  lemma AllDigits(c: char)
    requires ('0' <= c <= '9' || 'A' <= c <= 'Z') && c != 'I' && c != 'L' && c != 'O' && c != 'U'
    ensures c in B32
  {
    var i := if c <= '9' then c as int - '0' as int
             else if c <= 'H' then c as int - 'A' as int + 10
             else if c <= 'K' then c as int - 'J' as int + 18
             else if c <= 'N' then c as int - 'M' as int + 20
             else if c <= 'T' then c as int - 'P' as int + 22
             else c as int - 'V' as int + 27;
    assert B32[i] == c;
  }

  lemma AlphabetIsUlid(c: char)
    requires c in B32
    ensures UlidChar(c)
  {
    var i :| 0 <= i < 32 && B32[i] == c;
    assert forall k :: 0 <= k < 32 ==> UlidChar(B32[k]);
  }

  /** Every generated id has the shape that plan validation requires. */
  lemma UlidIsAccepted(ms: nat, random: nat)
    ensures |UlidOf(ms, random)| == 26 && MatchesUlid(UlidOf(ms, random))
    ensures forall i :: 0 <= i < 26 ==> UlidOf(ms, random)[i] in B32
  {
    var s := UlidOf(ms, random);
    forall i | 0 <= i < 26
      ensures s[i] in B32 && UlidChar(s[i])
    {
      assert s[i] == if i < 10 then Encode(ms, TIME_CHARS)[i] else Encode(random, RANDOM_CHARS)[i - 10];
      AlphabetIsUlid(s[i]);
    }
  }

  /** Both inputs can be read back, exactly when they fit: 50 bits of clock and 80 bits of randomness. */
  lemma UlidRoundTrip(ms: nat, random: nat)
    ensures forall i :: 0 <= i < 26 ==> UlidOf(ms, random)[i] in B32
    ensures Decode(UlidOf(ms, random)[..10]) == ms <==> ms < 0x4_0000_0000_0000
    ensures Decode(UlidOf(ms, random)[10..]) == random <==> random < 0x1_0000_0000_0000_0000_0000
  {
    UlidIsAccepted(ms, random);
    assert UlidOf(ms, random)[..10] == Encode(ms, TIME_CHARS);
    assert UlidOf(ms, random)[10..] == Encode(random, RANDOM_CHARS);
    Pow32Values();
    DecodeFits(ms, TIME_CHARS);
    DecodeFits(random, RANDOM_CHARS);
  }

  /** Generated ids sort by clock reading, and by their random part only when the readings are equal. */
  lemma UlidOrder(ms: nat, random: nat, ms': nat, random': nat)
    requires ms < 0x4_0000_0000_0000 && ms' < 0x4_0000_0000_0000
    requires random < 0x1_0000_0000_0000_0000_0000 && random' < 0x1_0000_0000_0000_0000_0000
    ensures Less(UlidOf(ms, random), UlidOf(ms', random')) <==> ms < ms' || (ms == ms' && random < random')
  {
    Pow32Values();
    LessSplit(Encode(ms, TIME_CHARS), Encode(random, RANDOM_CHARS),
              Encode(ms', TIME_CHARS), Encode(random', RANDOM_CHARS));
    EncodeOrder(ms, ms', TIME_CHARS);
    EncodeOrder(random, random', RANDOM_CHARS);
    EncodeInjective(ms, ms', TIME_CHARS);
  }
}
