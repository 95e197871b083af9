/**
 * One ustar header block: how the writer fills it, and how a POSIX reader takes it apart again.
 */
module TarHeader {
  import opened Bytes
  import opened Utf8
  import opened Digits
  import opened TarFields

  datatype EntryType = File | Dir | Symlink

  const NAME_WIDTH: nat := 100
  const PREFIX_WIDTH: nat := 155
  const LINK_WIDTH: nat := 100

  // ---- names: the prefix/name split --------------------------------------------------------

  /** The parts between occurrences of `c`; there is always at least one. */
  function Split(s: Text, c: Unit): (parts: seq<Text>)
    ensures parts != []
  {
    if s == [] then [[]]
    else
      var rest := Split(s[1..], c);
      if s[0] == c then [[]] + rest else [[s[0]] + rest[0]] + rest[1..]
  }

  function Join(parts: seq<Text>, c: Unit): Text
    requires parts != []
  {
    if |parts| == 1 then parts[0] else parts[0] + [c] + Join(parts[1..], c)
  }

  lemma {:induction false} JoinOfSplit(s: Text, c: Unit)
    ensures Join(Split(s, c), c) == s
  {
    if s != [] {
      JoinOfSplit(s[1..], c);
      var parts, rest := Split(s, c), Split(s[1..], c);
      if s[0] == c {
        assert parts[1..] == rest;
        assert s == [] + [c] + s[1..];
      } else {
        assert |rest| > 1 ==> parts[1..] == rest[1..];
        assert s == [s[0]] + s[1..];
      }
    }
  }

  lemma {:induction false} JoinCut(parts: seq<Text>, i: nat, c: Unit)
    requires 0 < i < |parts|
    ensures Join(parts[..i], c) + [c] + Join(parts[i..], c) == Join(parts, c)
  {
    if i == 1 {
      assert parts[..1] == [parts[0]];
    } else {
      JoinCut(parts[1..], i - 1, c);
      assert parts[..i][1..] == parts[1..][..i - 1];
      assert parts[1..][i - 1..] == parts[i..];
    }
  }

  datatype NameSplit = NameSplit(name: Text, prefix: Text)

  /** The first cut, from the `i`-th separator on, whose two sides both fit their fields. */
  function FindCut(parts: seq<Text>, i: nat): Option<NameSplit>
    requires 0 < i
    decreases |parts| - i
  {
    if i >= |parts| then None
    else
      var prefix, name := Join(parts[..i], SLASH), Join(parts[i..], SLASH);
      if |Encode(prefix)| <= PREFIX_WIDTH && |Encode(name)| <= NAME_WIDTH then Some(NameSplit(name, prefix))
      else FindCut(parts, i + 1)
  }

  /** How a path is spread over the name and prefix fields. */
  function SplitName(full: Text): NameSplit {
    if |Encode(full)| <= NAME_WIDTH then NameSplit(full, [])
    else
      match FindCut(Split(full, SLASH), 1)
      case Some(cut) => cut
      case None => NameSplit(TruncateUtf8(full, NAME_WIDTH), [])
  }

  lemma {:induction false} FindCutFits(parts: seq<Text>, i: nat)
    requires 0 < i
    ensures FindCut(parts, i).Some? ==>
      var cut := FindCut(parts, i).value;
      && |Encode(cut.name)| <= NAME_WIDTH && |Encode(cut.prefix)| <= PREFIX_WIDTH
      && parts != [] && cut.prefix + [SLASH] + cut.name == Join(parts, SLASH)
    decreases |parts| - i
  {
    if i < |parts| {
      JoinCut(parts, i, SLASH);
      FindCutFits(parts, i + 1);
    }
  }

  /** What a reader puts back together from the two fields. */
  function Rejoin(cut: NameSplit): Text {
    if cut.prefix == [] then cut.name else cut.prefix + [SLASH] + cut.name
  }

  /**
   * Both sides always fit their fields, and rejoining gives the path back unless the path could
   * not be cut, or could only be cut at a leading slash.
   */
  lemma SplitNameFits(full: Text)
    ensures var cut := SplitName(full);
      && |Encode(cut.name)| <= NAME_WIDTH && |Encode(cut.prefix)| <= PREFIX_WIDTH
      && (Rejoin(cut) == full <==>
           |Encode(full)| <= NAME_WIDTH || (FindCut(Split(full, SLASH), 1).Some? && cut.prefix != []))
  {
    JoinOfSplit(full, SLASH);
    FindCutFits(Split(full, SLASH), 1);
  }

  /** A slash both sides of which fit their fields. */
  ghost predicate CutsAt(full: Text, p: nat) {
    p < |full| && full[p] == SLASH && |Encode(full[..p])| <= 155 && |Encode(full[p + 1..])| <= 100
  }

  predicate CutFits(parts: seq<Text>, i: nat)
    requires 0 < i < |parts|
  {
    |Encode(Join(parts[..i], SLASH))| <= PREFIX_WIDTH && |Encode(Join(parts[i..], SLASH))| <= NAME_WIDTH
  }

  /** The first cut is taken, and none only if there is none. */
  lemma {:induction false} FindCutIsFirst(parts: seq<Text>, i: nat) returns (j: nat)
    requires 0 < i
    ensures i <= j && forall k :: i <= k < j && k < |parts| ==> !CutFits(parts, k)
    ensures if FindCut(parts, i).None? then j >= |parts|
            else j < |parts| && CutFits(parts, j)
                 && FindCut(parts, i) == Some(NameSplit(Join(parts[j..], SLASH), Join(parts[..j], SLASH)))
    decreases |parts| - i
  {
    hide Encode, Join;
    if i >= |parts| || CutFits(parts, i) {
      j := i;
    } else {
      j := FindCutIsFirst(parts, i + 1);
    }
  }

  lemma JoinFirst(first: Text, rest: seq<Text>, c: Unit)
    requires rest != []
    ensures Join([first] + rest, c) == first + [c] + Join(rest, c)
  {
    assert ([first] + rest)[1..] == rest;
  }

  lemma JoinGrow(x: Unit, parts: seq<Text>, c: Unit)
    requires parts != []
    ensures Join([[x] + parts[0]] + parts[1..], c) == [x] + Join(parts, c)
  {
    var grown := [[x] + parts[0]] + parts[1..];
    assert grown[1..] == parts[1..];
    if |parts| > 1 {
      assert Join(grown, c) == [x] + parts[0] + [c] + Join(parts[1..], c);
    }
  }

  lemma SplitStep(s: Text, c: Unit)
    requires s != []
    ensures var parts, rest := Split(s, c), Split(s[1..], c);
      parts == if s[0] == c then [[]] + rest else [[s[0]] + rest[0]] + rest[1..]
  {
  }

  lemma GrownCut(x: Unit, parts: seq<Text>, i: nat)
    requires 0 < i < |parts|
    ensures var grown := [[x] + parts[0]] + parts[1..];
      |grown| == |parts| && grown[..i] == [[x] + parts[..i][0]] + parts[..i][1..] && grown[i..] == parts[i..]
  {
  }

  lemma ShiftedCut(parts: seq<Text>, i: nat)
    requires i <= |parts|
    ensures ([[]] + parts)[..i + 1] == [[]] + parts[..i] && ([[]] + parts)[i + 1..] == parts[i..]
  {
  }

  lemma ShiftedText(s: Text, p: nat)
    requires 0 < p < |s|
    ensures s[..p] == [s[0]] + s[1..][..p - 1] && s[1..][p..] == s[p + 1..] && s[1..][p - 1] == s[p]
  {
  }

  /** Every separator is a cut between two parts. */
  lemma {:induction false} CutOfSlash(s: Text, c: Unit, p: nat) returns (i: nat)
    requires p < |s| && s[p] == c
    ensures 0 < i < |Split(s, c)|
    ensures Join(Split(s, c)[..i], c) == s[..p] && Join(Split(s, c)[i..], c) == s[p + 1..]
  {
    hide Split, Join;
    SplitStep(s, c);
    var rest := Split(s[1..], c);
    if p == 0 {
      i := 1;
      JoinOfSplit(s[1..], c);
      ShiftedCut(rest, 0);
      JoinOne([], c);
      assert rest[0..] == rest && rest[..0] == [] && [[]] + rest[..0] == [[]];
    } else {
      ShiftedText(s, p);
      var j := CutOfSlash(s[1..], c, p - 1);
      if s[0] == c {
        i := j + 1;
        ShiftedCut(rest, j);
        JoinFirst([], rest[..j], c);
        assert [] + [c] + s[1..][..p - 1] == s[..p];
      } else {
        i := j;
        GrownCut(s[0], rest, j);
        JoinGrow(s[0], rest[..j], c);
      }
    }
  }

  lemma JoinOne(part: Text, c: Unit)
    ensures Join([part], c) == part
  {
  }

  /** Later cuts have longer left sides. */
  lemma LaterCutIsLonger(parts: seq<Text>, i: nat, j: nat, c: Unit)
    requires 0 < i < j <= |parts|
    ensures |Join(parts[..i], c)| < |Join(parts[..j], c)|
  {
    assert parts[..j][..i] == parts[..i];
    JoinCut(parts[..j], i, c);
  }

  /** The cut between two parts is at a separator. */
  lemma SlashOfCut(full: Text, i: nat) returns (p: nat)
    requires 0 < i < |Split(full, SLASH)|
    ensures var parts := Split(full, SLASH);
      && p < |full| && full[p] == SLASH && p == |Join(parts[..i], SLASH)|
      && Join(parts[..i], SLASH) == full[..p] && Join(parts[i..], SLASH) == full[p + 1..]
  {
    hide Join, Split;
    var parts := Split(full, SLASH);
    JoinOfSplit(full, SLASH);
    JoinCut(parts, i, SLASH);
    p := |Join(parts[..i], SLASH)|;
  }

  /**
   * A name that fits stays whole; another one is cut at the first slash both sides of which fit, and
   * without such a slash only the longest beginning that fits is kept of it.
   */
  lemma SplitNameIs(full: Text)
    ensures var cut := SplitName(full);
      if |Encode(full)| <= NAME_WIDTH then cut == NameSplit(full, [])
      else if exists p: nat :: CutsAt(full, p) then
        exists p: nat ::
          CutsAt(full, p) && (forall q: nat :: q < p ==> !CutsAt(full, q)) && cut == NameSplit(full[p + 1..], full[..p])
      else cut == NameSplit(TruncateUtf8(full, NAME_WIDTH), [])
  {
    hide Encode, Join, Split, FindCut;
    var parts := Split(full, SLASH);
    var j := FindCutIsFirst(parts, 1);
    forall q: nat | CutsAt(full, q) ensures j < |parts| && |Join(parts[..j], SLASH)| <= q {
      var i := CutOfSlash(full, SLASH, q);
      assert CutFits(parts, i);
      if j < i {
        LaterCutIsLonger(parts, j, i, SLASH);
      }
    }
    if j < |parts| {
      var p := SlashOfCut(full, j);
      assert CutsAt(full, p);
    }
  }

  // ---- the block -----------------------------------------------------------------------------

  datatype HeaderInfo = HeaderInfo(name: Text, mode: int, size: int, mtime: int, linkname: Option<Text>)

  function LinkBytes(linkname: Option<Text>): (b: seq<Byte>)
    ensures |b| <= LINK_WIDTH
  {
    if linkname.None? then [] else FitUtf8(linkname.value, LINK_WIDTH)
  }

  const MAGIC: seq<Byte> := [117, 115, 116, 97, 114, 0]
  const VERSION: seq<Byte> := [48, 48]
  const SPACES: seq<Byte> := [32, 32, 32, 32, 32, 32, 32, 32]

  /** The 148 bytes before the checksum field. */
  function Front(info: HeaderInfo): (b: seq<Byte>)
    ensures |b| == 148
  {
    SplitNameFits(info.name);
    Padded(Encode(SplitName(info.name).name), NAME_WIDTH) + Numbers(info)
  }

  /** Mode, a zero uid and gid, size and modification time. */
  function Numbers(info: HeaderInfo): (b: seq<Byte>)
    ensures |b| == 48
  {
    OctalField(info.mode % 4096, 8) + OctalField(0, 8) + OctalField(0, 8)
    + OctalField(info.size, 12) + OctalField(info.mtime, 12)
  }

  /** The magic, the version, 80 unused bytes, the prefix and 12 bytes of padding. */
  function Tail(prefix: seq<Byte>): (b: seq<Byte>)
    requires |prefix| <= PREFIX_WIDTH
    ensures |b| == 255
  {
    MAGIC + VERSION + Zeros(80) + (Padded(prefix, PREFIX_WIDTH) + Zeros(12))
  }

  /** The 356 bytes after the checksum field. */
  function Back(info: HeaderInfo, typeflag: Byte): (b: seq<Byte>)
    ensures |b| == 356
  {
    SplitNameFits(info.name);
    [typeflag] + Padded(LinkBytes(info.linkname), LINK_WIDTH) + Tail(Encode(SplitName(info.name).prefix))
  }

  /** Six octal digits, a NUL and a space. */
  function ChecksumField(sum: nat): (f: seq<Byte>)
    ensures |f| == 8
  {
    OctalField(sum, 7)[..6] + [0, 32]
  }

  function HeaderBytes(info: HeaderInfo, typeflag: Byte): (b: seq<Byte>)
    ensures |b| == BLOCK
  {
    var front, back := Front(info), Back(info, typeflag);
    front + ChecksumField(Sum(front + SPACES + back)) + back
  }

  function PutNumbers(b: seq<Byte>, info: HeaderInfo): (r: seq<Byte>)
    requires |b| == BLOCK
    ensures |r| == BLOCK
  {
    var b1 := Patch(b, 100, OctalField(info.mode % 4096, 8));
    var b2 := Patch(b1, 108, OctalField(0, 8));
    var b3 := Patch(b2, 116, OctalField(0, 8));
    var b4 := Patch(b3, 124, OctalField(info.size, 12));
    Patch(b4, 136, OctalField(info.mtime, 12))
  }

  function PutFlagAndLink(b: seq<Byte>, typeflag: Byte, linkname: Option<Text>): (r: seq<Byte>)
    requires |b| == BLOCK
    ensures |r| == BLOCK
  {
    var b1 := Patch(b, 148, SPACES);
    var b2 := Patch(b1, 156, [typeflag]);
    if linkname.Some? then Patch(b2, 157, FitUtf8(linkname.value, 100)) else b2
  }

  function PutTail(b: seq<Byte>, prefix: Text): (r: seq<Byte>)
    requires |b| == BLOCK
    ensures |r| == BLOCK
  {
    Patch(Patch(Patch(b, 257, MAGIC), 263, VERSION), 345, FitUtf8(prefix, 155))
  }

  lemma PutNumbersIs(b: seq<Byte>, name: seq<Byte>, info: HeaderInfo)
    requires |name| == 100 && b == name + Zeros(BLOCK - 100)
    ensures PutNumbers(b, info) == name + Numbers(info) + Zeros(BLOCK - 148)
  {
    var m, z, s, t := OctalField(info.mode % 4096, 8), OctalField(0, 8),
        OctalField(info.size, 12), OctalField(info.mtime, 12);
    PatchNext(b, name, 100, m);
    var b1 := Patch(b, 100, m);
    PatchNext(b1, name + m, 108, z);
    var b2 := Patch(b1, 108, z);
    PatchNext(b2, name + (m + z), 116, z);
    var b3 := Patch(b2, 116, z);
    PatchNext(b3, name + (m + z + z), 124, s);
    PatchNext(Patch(b3, 124, s), name + (m + z + z + s), 136, t);
  }

  lemma PutFlagAndLinkIs(b: seq<Byte>, front: seq<Byte>, typeflag: Byte, linkname: Option<Text>)
    requires |front| == 148 && b == front + Zeros(BLOCK - 148)
    ensures PutFlagAndLink(b, typeflag, linkname)
         == front + SPACES + ([typeflag] + Padded(LinkBytes(linkname), 100)) + Zeros(BLOCK - 257)
  {
    PutSpacesAndFlag(b, front, SPACES, typeflag);
    var b2 := Patch(Patch(b, 148, SPACES), 156, [typeflag]);
    if linkname.Some? {
      PatchAppend(b2, front + SPACES, [typeflag], LinkBytes(linkname));
    }
    PadLink(front + SPACES, [typeflag], LinkBytes(linkname));
  }

  lemma PutSpacesAndFlag(b: seq<Byte>, front: seq<Byte>, spaces: seq<Byte>, typeflag: Byte)
    requires |front| == 148 && |spaces| == 8 && b == front + Zeros(BLOCK - 148)
    ensures Patch(Patch(b, 148, spaces), 156, [typeflag]) == front + spaces + [typeflag] + Zeros(BLOCK - 157)
  {
    PatchNext(b, front, 148, spaces);
    PatchNext(Patch(b, 148, spaces), front + spaces, 156, [typeflag]);
  }

  lemma PadLink(head: seq<Byte>, flag: seq<Byte>, link: seq<Byte>)
    requires |head| == 156 && |flag| == 1 && |link| <= 100
    ensures head + (flag + link) + Zeros(BLOCK - 157 - |link|) == head + (flag + Padded(link, 100)) + Zeros(BLOCK - 257)
    ensures link == [] ==> head + flag + Zeros(BLOCK - 157) == head + (flag + Padded(link, 100)) + Zeros(BLOCK - 257)
  {
  }

  lemma PutTailIs(b: seq<Byte>, head: seq<Byte>, prefix: Text)
    requires |head| == 257 && |Encode(prefix)| <= PREFIX_WIDTH && b == head + Zeros(BLOCK - 257)
    ensures PutTail(b, prefix) == head + Tail(Encode(prefix))
  {
    PutThree(b, head, MAGIC, VERSION, Encode(prefix));
  }

  lemma PutThree(b: seq<Byte>, head: seq<Byte>, magic: seq<Byte>, version: seq<Byte>, p: seq<Byte>)
    requires |head| == 257 && |magic| == 6 && |version| == 2 && |p| <= PREFIX_WIDTH && b == head + Zeros(BLOCK - 257)
    ensures Patch(Patch(Patch(b, 257, magic), 263, version), 345, p)
         == head + (magic + version + Zeros(80) + (Padded(p, PREFIX_WIDTH) + Zeros(12)))
  {
    PatchNext(b, head, 257, magic);
    var b1 := Patch(b, 257, magic);
    PatchAppend(b1, head, magic, version);
    var b2 := Patch(b1, 263, version);
    PatchNext(b2, head + (magic + version), 345, p);
    AfterGap(head, magic + version, p);
  }

  lemma AfterGap(head: seq<Byte>, marks: seq<Byte>, p: seq<Byte>)
    requires |head| == 257 && |marks| == 8 && |p| <= PREFIX_WIDTH
    ensures Padded(head + marks, 345) + p + Zeros(BLOCK - 345 - |p|)
         == head + (marks + Zeros(80) + (Padded(p, PREFIX_WIDTH) + Zeros(12)))
  {
    assert p + Zeros(BLOCK - 345 - |p|) == Padded(p, PREFIX_WIDTH) + Zeros(12);
  }

  /** Filling the fields in order, with spaces for the checksum. */
  lemma FilledIs(info: HeaderInfo, typeflag: Byte)
    ensures var cut := SplitName(info.name);
      PutTail(
        PutFlagAndLink(PutNumbers(Patch(Zeros(BLOCK), 0, FitUtf8(cut.name, 100)), info), typeflag, info.linkname),
        cut.prefix)
      == Front(info) + SPACES + Back(info, typeflag)
  {
    var cut := SplitName(info.name);
    SplitNameFits(info.name);
    var name, mid := Padded(Encode(cut.name), 100), [typeflag] + Padded(LinkBytes(info.linkname), 100);
    var b := Patch(Zeros(BLOCK), 0, FitUtf8(cut.name, 100));
    FirstField(Encode(cut.name));
    PutNumbersIs(b, name, info);
    var b1 := PutNumbers(b, info);
    PutFlagAndLinkIs(b1, Front(info), typeflag, info.linkname);
    var head := Front(info) + SPACES;
    PutTailIs(PutFlagAndLink(b1, typeflag, info.linkname), head + mid, cut.prefix);
    Associate(head, mid, Tail(Encode(cut.prefix)));
  }

  lemma FirstField(name: seq<Byte>)
    requires |name| <= 100
    ensures Patch(Zeros(BLOCK), 0, name) == Padded(name, 100) + Zeros(BLOCK - 100)
  {
    PatchNext(Zeros(BLOCK), [], 0, name);
  }

  /** Overwriting the spaces puts the checksum in place. */
  lemma Overwrite(front: seq<Byte>, old8: seq<Byte>, back: seq<Byte>, digits: seq<Byte>, end: seq<Byte>)
    requires |front| == 148 && |old8| == 8 && |digits| == 6 && |end| == 2
    ensures Patch(Patch(front + old8 + back, 148, digits), 154, end) == front + (digits + end) + back
  {
    var b := front + old8 + back;
    PatchIs(b, 148, digits);
    var c := Patch(b, 148, digits);
    assert b[..148] == front && b[154..] == old8[6..] + back;
    assert c == front + digits + (old8[6..] + back);
    PatchIs(c, 154, end);
    assert c[..154] == front + digits && c[156..] == back;
  }

  /** The sum of all bytes of the block, as the loop over the buffer computes it. */
  method ByteSum(header: array<Byte>) returns (sum: nat)
    ensures sum == Sum(header[..])
  {
    sum := 0;
    for i := 0 to header.Length
      invariant sum == Sum(header[..i])
    {
      SumConcat(header[..i], [header[i]]);
      assert header[..i + 1] == header[..i] + [header[i]];
      sum := sum + header[i] as nat;
    }
    assert header[..header.Length] == header[..];
  }

  /** Every field but the checksum, written in place in field order; the checksum holds spaces. */
  method FillFields(header: array<Byte>, info: HeaderInfo, typeflag: Byte)
    requires header.Length == BLOCK && header[..] == Zeros(BLOCK)
    modifies header
    ensures header[..] == Front(info) + SPACES + Back(info, typeflag)
  {
    var cut := SplitName(info.name);
    WriteAt(header, 0, FitUtf8(cut.name, 100));
    WriteAt(header, 100, OctalField(info.mode % 4096, 8));
    WriteAt(header, 108, OctalField(0, 8));
    WriteAt(header, 116, OctalField(0, 8));
    WriteAt(header, 124, OctalField(info.size, 12));
    WriteAt(header, 136, OctalField(info.mtime, 12));
    WriteAt(header, 148, SPACES);
    WriteAt(header, 156, [typeflag]);
    if info.linkname.Some? {
      WriteAt(header, 157, FitUtf8(info.linkname.value, 100));
    }
    WriteAt(header, 257, MAGIC);
    WriteAt(header, 263, VERSION);
    WriteAt(header, 345, FitUtf8(cut.prefix, 155));
    FilledIs(info, typeflag);
  }

  /** Fill a zeroed block, then overwrite the spaces with the checksum over all of it. */
  method BuildHeader(info: HeaderInfo, typeflag: Byte) returns (header: array<Byte>)
    ensures fresh(header) && header[..] == HeaderBytes(info, typeflag)
  {
    header := new Byte[BLOCK](_ => 0);
    assert header[..] == Zeros(BLOCK);
    FillFields(header, info, typeflag);
    var sum := ByteSum(header);
    Overwrite(Front(info), SPACES, Back(info, typeflag), OctalField(sum, 7)[..6], [0, 32]);
    WriteAt(header, 148, OctalField(sum, 7)[..6]);
    WriteAt(header, 154, [0, 32]);
  }
}
