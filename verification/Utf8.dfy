/**
 * Text as the platform's runtime holds it (a sequence of UTF-16 code units, possibly with lone
 * surrogates) and the UTF-8 bytes it is written as. A lone surrogate is written as U+FFFD.
 */
module Utf8 {
  import opened Bytes

  type Unit = u: int | 0 <= u < 0x1_0000
  type Text = seq<Unit>

  const SLASH: Unit := 47

  predicate IsHigh(u: Unit) { 0xD800 <= u < 0xDC00 }
  predicate IsLow(u: Unit) { 0xDC00 <= u < 0xE000 }

  /** How many units the first character of `s` takes. */
  function Width(s: Text): (n: nat)
    requires s != []
    ensures 1 <= n <= 2 && n <= |s|
  {
    if |s| >= 2 && IsHigh(s[0]) && IsLow(s[1]) then 2 else 1
  }

  /** The code point of a surrogate pair. */
  function CodePoint(hi: int, lo: int): int {
    0x1_0000 + (hi - 0xD800) * 0x400 + (lo - 0xDC00)
  }

  function EncodePair(hi: Unit, lo: Unit): (b: seq<Byte>)
    requires IsHigh(hi) && IsLow(lo)
    ensures |b| == 4
  {
    var cp := CodePoint(hi, lo);
    [0xF0 + cp / 0x4_0000, 0x80 + cp / 0x1000 % 64, 0x80 + cp / 64 % 64, 0x80 + cp % 64]
  }

  function EncodeUnit(unit: Unit): (b: seq<Byte>)
    ensures 1 <= |b| <= 3
  {
    var u: int := unit;
    if u < 0x80 then [u]
    else if u < 0x800 then [0xC0 + u / 64, 0x80 + u % 64]
    else if IsHigh(u) || IsLow(u) then [0xEF, 0xBF, 0xBD]
    else [0xE0 + u / 0x1000, 0x80 + u / 64 % 64, 0x80 + u % 64]
  }

  function EncodeFirst(s: Text): (b: seq<Byte>)
    requires s != []
    ensures 1 <= |b| <= 4 && |b| <= 3 * Width(s)
  {
    if Width(s) == 2 then EncodePair(s[0], s[1]) else EncodeUnit(s[0])
  }

  function Encode(s: Text): seq<Byte> {
    if s == [] then [] else EncodeFirst(s) + Encode(s[Width(s)..])
  }

  /** What the first character reads back as. */
  function ScrubFirst(s: Text): Text
    requires s != []
  {
    if Width(s) == 2 then [s[0], s[1]]
    else [if IsHigh(s[0]) || IsLow(s[0]) then 0xFFFD else s[0]]
  }

  /** The text with every lone surrogate replaced by U+FFFD: what its UTF-8 form denotes. */
  function Scrub(s: Text): (r: Text)
    ensures |r| == |s|
  {
    if s == [] then []
    else if StartsPair(s) then s[..2] + Scrub(s[2..])
    else [if 0xD800 <= s[0] < 0xE000 then 0xFFFD else s[0]] + Scrub(s[1..])
  }

  predicate StartsPair(s: Text) {
    |s| >= 2 && 0xD800 <= s[0] < 0xDC00 && 0xDC00 <= s[1] < 0xE000
  }

  predicate IsWellFormed(s: Text) {
    || s == []
    || (if StartsPair(s) then IsWellFormed(s[2..]) else !(0xD800 <= s[0] < 0xE000) && IsWellFormed(s[1..]))
  }

  lemma ScrubIs(s: Text)
    requires s != []
    ensures Scrub(s) == ScrubFirst(s) + Scrub(s[Width(s)..])
    ensures IsWellFormed(s) <==> (Width(s) == 2 || !(IsHigh(s[0]) || IsLow(s[0]))) && IsWellFormed(s[Width(s)..])
  {
    assert Width(s) == 2 ==> s[..2] == [s[0], s[1]];
  }

  predicate IsContinuation(b: Byte) { 0x80 <= b < 0xC0 }

  function Join2(a: int, b: int): int { a * 64 + (b - 0x80) }

  /** The first character of a byte string and how many bytes it takes; no longer form than needed, no surrogate. */
  function DecodeFirst(b: seq<Byte>): Option<(Text, nat)>
    requires b != []
  {
    var lead: int := b[0];
    if lead < 0x80 then Some(([lead], 1))
    else if 0xC0 <= lead < 0xE0 && |b| >= 2 && IsContinuation(b[1]) then
      var cp := Join2(lead - 0xC0, b[1]);
      if cp < 0x80 then None else Some(([cp], 2))
    else if 0xE0 <= lead < 0xF0 && |b| >= 3 && IsContinuation(b[1]) && IsContinuation(b[2]) then
      var cp := Join2(Join2(lead - 0xE0, b[1]), b[2]);
      if cp < 0x800 || 0xD800 <= cp < 0xE000 then None else Some(([cp], 3))
    else if 0xF0 <= lead && |b| >= 4 && IsContinuation(b[1]) && IsContinuation(b[2]) && IsContinuation(b[3]) then
      var cp := Join2(Join2(Join2(lead - 0xF0, b[1]), b[2]), b[3]) - 0x1_0000;
      if 0 <= cp < 0x10_0000 then Some(([0xD800 + cp / 0x400, 0xDC00 + cp % 0x400], 4)) else None
    else None
  }

  function Decode(b: seq<Byte>): Option<Text> {
    if b == [] then Some([])
    else
      var (head, n) :- DecodeFirst(b);
      if n > |b| || n == 0 then None
      else
        var tail :- Decode(b[n..]);
        Some(head + tail)
  }

  /** The four base-64 digits of a code point put it back together. */
  lemma JoinDigits(cp: int)
    requires 0 <= cp
    ensures Join2(Join2(Join2(cp / 0x4_0000, 0x80 + cp / 0x1000 % 64), 0x80 + cp / 64 % 64), 0x80 + cp % 64) == cp
    ensures Join2(Join2(cp / 0x1000, 0x80 + cp / 64 % 64), 0x80 + cp % 64) == cp
    ensures Join2(cp / 64, 0x80 + cp % 64) == cp
  {
    assert cp / 0x1000 == (cp / 64) / 64;
    assert cp / 0x4_0000 == (cp / 0x1000) / 64;
  }

  lemma SplitPair(hi: int, lo: int)
    requires 0xD800 <= hi < 0xDC00 && 0xDC00 <= lo < 0xE000
    ensures var cp := CodePoint(hi, lo) - 0x1_0000;
      0 <= cp < 0x10_0000 && 0xD800 + cp / 0x400 == hi && 0xDC00 + cp % 0x400 == lo
  {
  }

  lemma DecodeFirstOfEncoded(s: Text, rest: seq<Byte>)
    requires s != []
    ensures DecodeFirst(EncodeFirst(s) + rest) == Some((ScrubFirst(s), |EncodeFirst(s)|))
  {
    var e := EncodeFirst(s);
    var b := e + rest;
    assert forall i :: 0 <= i < |e| ==> b[i] == e[i];
    if Width(s) == 2 {
      JoinDigits(CodePoint(s[0], s[1]));
      SplitPair(s[0], s[1]);
    } else if IsHigh(s[0]) || IsLow(s[0]) {
      assert Join2(Join2(0xEF - 0xE0, 0xBF), 0xBD) == 0xFFFD;
    } else {
      JoinDigits(s[0]);
    }
  }

  /** Writing text and reading it back gives the text itself, up to lone surrogates. */
  lemma {:induction false} DecodeOfEncode(s: Text)
    ensures Decode(Encode(s)) == Some(Scrub(s))
  {
    if s != [] {
      var e, tail := EncodeFirst(s), s[Width(s)..];
      DecodeOfEncode(tail);
      DecodeFirstOfEncoded(s, Encode(tail));
      var b := e + Encode(tail);
      assert Encode(s) == b;
      assert b[|e|..] == Encode(tail);
      DecodeStep(b, ScrubFirst(s), |e|, Scrub(tail));
      ScrubIs(s);
    }
  }

  lemma DecodeStep(b: seq<Byte>, head: Text, n: nat, tail: Text)
    requires b != [] && 0 < n <= |b|
    requires DecodeFirst(b) == Some((head, n)) && Decode(b[n..]) == Some(tail)
    ensures Decode(b) == Some(head + tail)
  {
  }

  lemma {:induction false} ScrubFixes(s: Text)
    ensures Scrub(s) == s <==> IsWellFormed(s)
  {
    if s != [] {
      var n := Width(s);
      ScrubFixes(s[n..]);
      ScrubIs(s);
      assert Scrub(s) == Scrub(s)[..n] + Scrub(s[n..]);
      assert s == s[..n] + s[n..];
      assert Scrub(s)[0] == s[0] <==> n == 2 || !(IsHigh(s[0]) || IsLow(s[0]));
      assert Scrub(s) == s ==> Scrub(s)[n..] == s[n..];
    }
  }

  /** Two texts that do not meet in the middle of a surrogate pair. */
  predicate Apart(s: Text, t: Text) {
    s == [] || t == [] || !IsHigh(s[|s| - 1]) || !IsLow(t[0])
  }

  lemma FirstOfConcat(s: Text, t: Text)
    requires s != [] && Apart(s, t)
    ensures Width(s + t) == Width(s) && EncodeFirst(s + t) == EncodeFirst(s)
    ensures (s + t)[Width(s)..] == s[Width(s)..] + t && Apart(s[Width(s)..], t)
  {
  }

  lemma {:induction false} EncodeConcat(s: Text, t: Text)
    requires Apart(s, t)
    ensures Encode(s + t) == Encode(s) + Encode(t)
  {
    if s == [] {
      assert s + t == t;
    } else {
      FirstOfConcat(s, t);
      var tail := s[Width(s)..];
      EncodeConcat(tail, t);
      assert Encode(s + t) == EncodeFirst(s) + (Encode(tail) + Encode(t));
    }
  }

  lemma EncodeCons(c: Unit, t: Text)
    requires c < 0x80
    ensures Encode([c] + t) == [c] + Encode(t)
  {
    assert ([c] + t)[1..] == t;
  }

  lemma EncodeSnoc(s: Text, c: Unit)
    requires c < 0x80
    ensures Encode(s + [c]) == Encode(s) + [c]
  {
    EncodeAscii([c]);
    assert Encode([c]) == [c];
    EncodeConcat(s, [c]);
  }

  /** An ASCII separator never merges with its neighbours. */
  lemma EncodeAround(s: Text, c: Unit, t: Text)
    requires c < 0x80
    ensures Encode(s + [c] + t) == Encode(s) + [c] + Encode(t)
  {
    EncodeConcat(s + [c], t);
    EncodeSnoc(s, c);
  }

  lemma {:induction false} EncodeAscii(s: Text)
    requires forall i :: 0 <= i < |s| ==> s[i] < 0x80
    ensures |Encode(s)| == |s| && forall i :: 0 <= i < |s| ==> Encode(s)[i] == s[i]
  {
    if s != [] {
      EncodeAscii(s[1..]);
    }
  }

  /** An ASCII byte appears in the byte form exactly when its character appears in the text. */
  lemma {:induction false} EncodeKeepsAscii(s: Text, c: Byte)
    requires c < 0x80
    ensures c in Encode(s) <==> c in s
  {
    if s != [] {
      var n := Width(s);
      EncodeKeepsAscii(s[n..], c);
      assert s == s[..n] + s[n..];
      assert c in EncodeFirst(s) <==> c in s[..n] by {
        assert s[..n] == if n == 2 then [s[0], s[1]] else [s[0]];
      }
    }
  }

  lemma {:induction false} EncodeLength(s: Text)
    ensures |s| <= |Encode(s)| * 2 && |Encode(s)| <= 3 * |s|
  {
    if s != [] {
      EncodeLength(s[Width(s)..]);
    }
  }

  /** Dropping the last unit shortens the byte form, even through the middle of a pair. */
  lemma {:induction false} EncodeDropLast(s: Text)
    requires s != []
    ensures |Encode(s[..|s| - 1])| < |Encode(s)|
  {
    var n := Width(s);
    if |s| > n {
      assert s[..|s| - 1][n..] == s[n..][..|s[n..]| - 1];
      assert Width(s[..|s| - 1]) == n;
      assert EncodeFirst(s[..|s| - 1]) == EncodeFirst(s);
      EncodeDropLast(s[n..]);
    } else if n == 2 {
      assert s[..1] == [s[0]];
      assert s[2..] == [];
      assert [s[0]][1..] == [];
    } else {
      assert s[..0] == [];
    }
  }
}
