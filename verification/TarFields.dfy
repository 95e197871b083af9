/**
 * Fixed-width fields of a ustar header ("ustar Interchange Format", pax utility, POSIX.1-2017):
 * NUL-padded text and NUL-terminated octal numbers, written in place into a 512-byte block.
 */
module TarFields {
  import opened Bytes
  import opened Utf8
  import opened Digits

  const BLOCK: nat := 512

  /** `n` rounded up to whole blocks. */
  function RoundUp(n: nat): (r: nat)
    ensures r % BLOCK == 0 && n <= r < n + BLOCK
  {
    (n + 511) / 512 * 512
  }

  /** Text shortened one UTF-16 unit at a time until its bytes fit. */
  function TruncateUtf8(value: Text, maxBytes: nat): (out: Text)
    ensures out <= value && |Encode(out)| <= maxBytes
    ensures |Encode(value)| <= maxBytes ==> out == value
    decreases |value|
  {
    if |Encode(value)| <= maxBytes || value == [] then value
    else TruncateUtf8(value[..|value| - 1], maxBytes)
  }

  /** What is kept is the longest beginning that fits. */
  lemma {:induction false} TruncateIsLongest(value: Text, maxBytes: nat, n: nat)
    requires |TruncateUtf8(value, maxBytes)| < n <= |value|
    ensures |Encode(value[..n])| > maxBytes
    decreases |value|
  {
    if n == |value| {
      assert value[..n] == value;
    } else {
      var shorter := value[..|value| - 1];
      TruncateIsLongest(shorter, maxBytes, n);
      assert shorter[..n] == value[..n];
    }
  }

  /** What a bounded UTF-8 write puts in a buffer: whole characters, as many as fit. */
  function FitUtf8(s: Text, room: nat): (b: seq<Byte>)
    ensures |b| <= room
    ensures |Encode(s)| <= room ==> b == Encode(s)
    decreases |s|
  {
    if s == [] || |EncodeFirst(s)| > room then []
    else EncodeFirst(s) + FitUtf8(s[Width(s)..], room - |EncodeFirst(s)|)
  }

  /** `max(0, v)` in octal, padded with zeros to `len - 1` digits, a NUL, cut at `len` bytes. */
  function OctalField(v: int, len: nat): (f: seq<Byte>)
    requires len > 0
    ensures |f| == len
  {
    var ds := Print(NonNegative(v), 8);
    (Fill(if |ds| < len - 1 then len - 1 - |ds| else 0) + ds + [0])[..len]
  }

  /** An octal number, which a NUL or a space must end inside the field. */
  function ReadOctal(f: seq<Byte>): Option<nat> {
    var n := DigitRun(f, 8);
    if n == 0 || n == |f| || (f[n] != 0 && f[n] != 32) then None
    else
      var v := ValueOf(f[..n], 8);
      if v < 0 then None else Some(v)
  }

  lemma ReadOctalOf(k: nat, n: nat, rest: seq<Byte>)
    requires rest != [] && (rest[0] == 0 || rest[0] == 32)
    ensures ReadOctal(Fill(k) + Print(n, 8) + rest) == Some(n)
  {
    var ds := Fill(k) + Print(n, 8);
    var f := ds + rest;
    PrintIsDigits(n, 8);
    DigitRunStops(ds, rest, 8);
    assert f[..|ds|] == ds;
    LeadingZeros(k, Print(n, 8), 8);
    ValueOfPrint(n, 8);
  }

  /** An unterminated field reads as nothing. */
  lemma ReadOctalUnterminated(f: seq<Byte>)
    requires AllDigits(f, 8)
    ensures ReadOctal(f) == None
  {
    DigitRunStops(f, [], 8);
    assert f + [] == f;
  }

  function NonNegative(v: int): nat {
    if v < 0 then 0 else v
  }

  /** A number below 8 to the `len - 1` reads back, a negative one as 0; a larger one reads as nothing. */
  lemma OctalRoundTrip(v: int, len: nat)
    requires len >= 2
    ensures ReadOctal(OctalField(v, len)) == if v < Power(8, len - 1) then Some(if v < 0 then 0 else v) else None
  {
    var n := NonNegative(v);
    var ds := Print(n, 8);
    PrintLength(n, 8, len - 1);
    PrintIsDigits(n, 8);
    PowerMonotone(8, 0, len - 1);
    var k := if |ds| < len - 1 then len - 1 - |ds| else 0;
    if |ds| <= len - 1 {
      assert OctalField(v, len) == Fill(k) + ds + [0];
      ReadOctalOf(k, n, [0]);
    } else {
      assert OctalField(v, len) == ds[..len];
      ReadOctalUnterminated(ds[..len]);
    }
  }

  /** A text field: the bytes, then NULs up to the width. */
  function Padded(b: seq<Byte>, width: nat): (f: seq<Byte>)
    requires |b| <= width
    ensures |f| == width
  {
    b + Zeros(width - |b|)
  }

  /** The block after `data` is written at `offset`, byte by byte. */
  function Patch(block: seq<Byte>, offset: nat, data: seq<Byte>): (r: seq<Byte>)
    requires offset + |data| <= |block|
    ensures |r| == |block|
    decreases |data|
  {
    if data == [] then block else Patch(block[offset := data[0]], offset + 1, data[1..])
  }

  lemma {:induction false} PatchIs(block: seq<Byte>, offset: nat, data: seq<Byte>)
    requires offset + |data| <= |block|
    ensures Patch(block, offset, data) == block[..offset] + data + block[offset + |data|..]
    decreases |data|
  {
    if data != [] {
      PatchIs(block[offset := data[0]], offset + 1, data[1..]);
      assert data == [data[0]] + data[1..];
    }
  }

  /** Writing the next field of a block that is still all zeros from the end of `done` on. */
  lemma PatchNext(block: seq<Byte>, done: seq<Byte>, offset: nat, data: seq<Byte>)
    requires |done| <= offset && offset + |data| <= |block|
    requires block == done + Zeros(|block| - |done|)
    ensures Patch(block, offset, data) == Padded(done, offset) + data + Zeros(|block| - offset - |data|)
  {
    PatchIs(block, offset, data);
  }

  /** The same without a gap; `front` and `back` are any split of what is already in place. */
  lemma PatchAppend(block: seq<Byte>, front: seq<Byte>, back: seq<Byte>, data: seq<Byte>)
    requires |front| + |back| + |data| <= |block|
    requires block == front + back + Zeros(|block| - |front| - |back|)
    ensures Patch(block, |front| + |back|, data)
         == front + (back + data) + Zeros(|block| - |front| - |back| - |data|)
  {
    PatchNext(block, front + back, |front| + |back|, data);
    assert Padded(front + back, |front| + |back|) + data == front + (back + data);
  }

  /** Write `data` at `offset` of the block, in place. */
  method WriteAt(block: array<Byte>, offset: nat, data: seq<Byte>)
    requires offset + |data| <= block.Length
    modifies block
    ensures block[..] == Patch(old(block[..]), offset, data)
  {
    for i := 0 to |data|
      invariant Patch(block[..], offset + i, data[i..]) == Patch(old(block[..]), offset, data)
    {
      ghost var before := block[..];
      block[offset + i] := data[i];
      assert block[..] == before[offset + i := data[i]];
      assert data[i..][1..] == data[i + 1..];
    }
  }
}
