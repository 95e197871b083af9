/**
 * A POSIX reader of ustar archives with pax extended headers, written as the specification the
 * writer is checked against ("ustar Interchange Format" and "pax Extended Header", pax utility,
 * POSIX.1-2017).
 */
module TarReader {
  import opened Bytes
  import opened Utf8
  import opened Digits
  import opened TarFields
  import opened TarHeader
  import opened Pax

  /** "ustar", a NUL, and "00". */
  const USTAR: seq<Byte> := [117, 115, 116, 97, 114, 0]
  const USTAR_VERSION: seq<Byte> := [48, 48]

  /** What a type flag says: `0` a regular file, `2` a symbolic link, `5` a directory. */
  function TypeOf(flag: Byte): Option<EntryType> {
    if flag == 48 then Some(File) else if flag == 50 then Some(Symlink) else if flag == 53 then Some(Dir) else None
  }

  /** The flag `x`: an extended header for the next member. */
  predicate IsExtended(flag: Byte) {
    flag == 120
  }

  datatype Header = Header(path: seq<Byte>, mode: nat, owner: (nat, nat), size: nat, mtime: nat,
                           typeflag: Byte, link: seq<Byte>)

  /** The two fields of a path, with a slash (47) between them. */
  function JoinPath(prefix: seq<Byte>, name: seq<Byte>): seq<Byte> {
    if prefix == [] then name else prefix + [47] + name
  }

  /** One header block: magic and checksum must be right and every number well formed. */
  function ParseHeader(b: seq<Byte>): Option<Header>
    requires |b| == BLOCK
  {
    var sum :- ReadOctal(b[148..156]);
    if sum != Sum(b[..148]) + 8 * 32 + Sum(b[156..]) || b[257..263] != USTAR || b[263..265] != USTAR_VERSION then None
    else
      var mode :- ReadOctal(b[100..108]);
      var uid :- ReadOctal(b[108..116]);
      var gid :- ReadOctal(b[116..124]);
      var size :- ReadOctal(b[124..136]);
      var mtime :- ReadOctal(b[136..148]);
      var path := JoinPath(CString(b[345..500]), CString(b[..100]));
      Some(Header(path, mode, (uid, gid), size, mtime, b[156], CString(b[157..257])))
  }

  /** What an extended header says about the entry that follows it. */
  datatype Overrides = Overrides(path: Option<seq<Byte>>, link: Option<seq<Byte>>)

  const NO_OVERRIDES := Overrides(None, None)

  /** "path" and "linkpath". */
  const PATH: seq<Byte> := [112, 97, 116, 104]
  const LINKPATH: seq<Byte> := [108, 105, 110, 107, 112, 97, 116, 104]

  /** All records of an extended header; a later record wins, an unknown key is ignored. */
  function ParsePax(s: seq<Byte>, seen: Overrides): Option<Overrides>
    decreases |s|
  {
    if s == [] then Some(seen)
    else
      match ParseRecord(s)
      case None => None
      case Some((key, value, rest)) =>
        if |rest| >= |s| then None
        else if key == PATH then ParsePax(rest, seen.(path := Some(value)))
        else if key == LINKPATH then ParsePax(rest, seen.(link := Some(value)))
        else ParsePax(rest, seen)
  }

  /** One archive member as the reader reports it. */
  datatype Member = Member(path: seq<Byte>, kind: Option<EntryType>, link: seq<Byte>, mode: nat, owner: (nat, nat),
                           mtime: nat, size: nat, content: seq<Byte>)

  function Apply(h: Header, over: Overrides, content: seq<Byte>): Member {
    Member(if over.path.Some? then over.path.value else h.path, TypeOf(h.typeflag),
           if over.link.Some? then over.link.value else h.link, h.mode, h.owner, h.mtime, h.size, content)
  }

  /** Only regular files and extended headers are followed by data. */
  function DataSize(h: Header): nat {
    if TypeOf(h.typeflag) == Some(File) || IsExtended(h.typeflag) then h.size else 0
  }

  /** What stands at the front of the remaining bytes. */
  datatype Step = End | Bad | Found(h: Header, data: seq<Byte>, rest: seq<Byte>)

  function NextStep(s: seq<Byte>): (r: Step)
    ensures r.Found? ==> |r.rest| < |s|
  {
    if |s| < BLOCK then Bad
    else if s[..BLOCK] == Zeros(BLOCK) then
      if |s| >= 2 * BLOCK && s[BLOCK..2 * BLOCK] == Zeros(BLOCK) then End else Bad
    else
      match ParseHeader(s[..BLOCK])
      case None => Bad
      case Some(h) => TakeData(h, s)
  }

  function TakeData(h: Header, s: seq<Byte>): (r: Step)
    requires |s| >= BLOCK
    ensures r.Found? ==> |r.rest| < |s|
  {
    var size := DataSize(h);
    var end := BLOCK + RoundUp(size);
    if |s| < end then Bad else Found(h, s[BLOCK..BLOCK + size], s[end..])
  }

  function Cons(m: Member, members: Option<seq<Member>>): Option<seq<Member>> {
    if members.None? then None else Some([m] + members.value)
  }

  /** The members up to the two zero blocks that end the archive. */
  function ReadArchive(s: seq<Byte>, over: Overrides): Option<seq<Member>>
    decreases |s|
  {
    match NextStep(s)
    case End => Some([])
    case Bad => None
    case Found(h, data, rest) =>
      if !IsExtended(h.typeflag) then Cons(Apply(h, over, data), ReadArchive(rest, NO_OVERRIDES))
      else
        match ParsePax(data, NO_OVERRIDES)
        case None => None
        case Some(next) => ReadArchive(rest, next)
  }

  // ---- reading back one written header -------------------------------------------------------

  predicate NoNul(s: Text) {
    forall i :: 0 <= i < |s| ==> s[i] != 0
  }

  /** Where each field of a written header lies. */
  lemma HeaderSlices(info: HeaderInfo, typeflag: Byte)
    ensures var b, front, back := HeaderBytes(info, typeflag), Front(info), Back(info, typeflag);
      && b[..148] == front && b[148..156] == ChecksumField(Sum(front + SPACES + back)) && b[156..] == back
  {
  }

  lemma FrontSlices(info: HeaderInfo)
    ensures var front, cut := Front(info), SplitName(info.name);
      && |Encode(cut.name)| <= NAME_WIDTH
      && front[..100] == Padded(Encode(cut.name), 100) && front[100..108] == OctalField(info.mode % 4096, 8)
      && front[108..116] == OctalField(0, 8) && front[116..124] == OctalField(0, 8)
      && front[124..136] == OctalField(info.size, 12) && front[136..148] == OctalField(info.mtime, 12)
  {
    SplitNameFits(info.name);
    var name, n := Padded(Encode(SplitName(info.name).name), NAME_WIDTH), Numbers(info);
    NumbersSlices(info);
    assert forall i, j :: 0 <= i <= j <= 48 ==> (name + n)[100 + i..100 + j] == n[i..j];
    assert (name + n)[100 + 0..100 + 8] == n[0..8];
    assert (name + n)[100 + 8..100 + 16] == n[8..16];
    assert (name + n)[100 + 16..100 + 24] == n[16..24];
    assert (name + n)[100 + 24..100 + 36] == n[24..36];
    assert (name + n)[100 + 36..100 + 48] == n[36..48];
  }

  lemma NumbersSlices(info: HeaderInfo)
    ensures var n := Numbers(info);
      && n[0..8] == OctalField(info.mode % 4096, 8) && n[8..16] == OctalField(0, 8) && n[16..24] == OctalField(0, 8)
      && n[24..36] == OctalField(info.size, 12) && n[36..48] == OctalField(info.mtime, 12)
  {
  }

  lemma BackSlices(info: HeaderInfo, typeflag: Byte)
    ensures var back, cut := Back(info, typeflag), SplitName(info.name);
      && |Encode(cut.prefix)| <= PREFIX_WIDTH
      && back[0] == typeflag && back[1..101] == Padded(LinkBytes(info.linkname), 100)
      && back[101..107] == MAGIC && back[107..109] == VERSION && back[189..344] == Padded(Encode(cut.prefix), 155)
  {
    SplitNameFits(info.name);
    var link, tail := Padded(LinkBytes(info.linkname), 100), Tail(Encode(SplitName(info.name).prefix));
    var back := [typeflag] + link + tail;
    assert back[1..101] == link;
    assert back[101..] == tail;
    TailSlices(MAGIC, VERSION, Padded(Encode(SplitName(info.name).prefix), 155));
    assert back[101..107] == tail[0..6] && back[107..109] == tail[6..8] && back[189..344] == tail[88..243];
  }

  lemma TailSlices(magic: seq<Byte>, version: seq<Byte>, prefix: seq<Byte>)
    requires |magic| == 6 && |version| == 2 && |prefix| == 155
    ensures var tail := magic + version + Zeros(80) + (prefix + Zeros(12));
      tail[0..6] == magic && tail[6..8] == version && tail[88..243] == prefix
  {
  }

  /** The checksum always fits its six digits, and reads back. */
  lemma ChecksumFits(sum: nat)
    requires sum <= 255 * BLOCK
    ensures ReadOctal(ChecksumField(sum)) == Some(sum)
  {
    assert Power(8, 6) == 262144 by {
      assert Power(8, 1) == 8 && Power(8, 2) == 64 && Power(8, 3) == 512;
      assert Power(8, 4) == 4096 && Power(8, 5) == 32768;
    }
    PrintLength(sum, 8, 6);
    var ds := Print(sum, 8);
    assert OctalField(sum, 7)[..6] == Fill(6 - |ds|) + ds;
    ReadOctalOf(6 - |ds|, sum, [0, 32]);
  }

  lemma SumOfSpaces()
    ensures Sum(SPACES) == 8 * 32
  {
    var two: seq<Byte> := [32, 32];
    assert Sum(two) == 64 by {
      assert two[1..] == [32] && two[1..][1..] == [];
    }
    SumConcat(two, two);
    SumConcat(two + two, two + two);
    assert SPACES == two + two + (two + two);
  }

  lemma ChecksumReads(info: HeaderInfo, typeflag: Byte)
    ensures var b := HeaderBytes(info, typeflag);
      ReadOctal(b[148..156]) == Some(Sum(b[..148]) + 8 * 32 + Sum(b[156..]))
  {
    var front, back := Front(info), Back(info, typeflag);
    HeaderSlices(info, typeflag);
    SumConcat(front + SPACES, back);
    SumConcat(front, SPACES);
    SumOfSpaces();
    SumBound(front + SPACES + back);
    ChecksumFits(Sum(front + SPACES + back));
  }

  /** Can the number be written in a 12-byte field? The bound is 8 to the 11th. */
  predicate FitsField(v: int) {
    v < 0x2_0000_0000
  }

  lemma EightToEleven()
    ensures Power(8, 11) == 0x2_0000_0000
  {
    assert Power(8, 2) == 64 && Power(8, 4) == 4096 && Power(8, 6) == 0x4_0000;
    assert Power(8, 8) == 0x100_0000 && Power(8, 10) == 0x4000_0000;
  }

  lemma NumberReads(v: int)
    ensures ReadOctal(OctalField(v, 12)) == if FitsField(v) then Some(NonNegative(v)) else None
  {
    EightToEleven();
    OctalRoundTrip(v, 12);
  }

  /** What a reader makes of a header written for `info`: nothing if a number does not fit. */
  function Parsed(info: HeaderInfo, typeflag: Byte): Option<Header> {
    if !FitsField(info.size) || !FitsField(info.mtime) then None
    else
      Some(Header(Encode(Rejoin(SplitName(info.name))), info.mode % 4096, (0, 0), NonNegative(info.size),
                  NonNegative(info.mtime), typeflag, LinkBytes(info.linkname)))
  }

  lemma CutHasNoNul(full: Text)
    requires NoNul(full)
    ensures NoNul(SplitName(full).name) && NoNul(SplitName(full).prefix)
  {
    JoinOfSplit(full, SLASH);
    FindCutFits(Split(full, SLASH), 1);
    var found := FindCut(Split(full, SLASH), 1);
    if found.Some? {
      SidesHaveNoNul(found.value.prefix, found.value.name);
    }
  }

  lemma SidesHaveNoNul(prefix: Text, name: Text)
    requires NoNul(prefix + [SLASH] + name)
    ensures NoNul(prefix) && NoNul(name)
  {
    var full := prefix + [SLASH] + name;
    assert forall i :: 0 <= i < |prefix| ==> prefix[i] == full[i];
    assert forall i :: 0 <= i < |name| ==> name[i] == full[|prefix| + 1 + i];
  }

  lemma {:induction false} FitHasNoNul(s: Text, room: nat)
    requires NoNul(s)
    ensures forall i :: 0 <= i < |FitUtf8(s, room)| ==> FitUtf8(s, room)[i] != 0
    decreases |s|
  {
    if s != [] && |EncodeFirst(s)| <= room {
      FirstHasNoNul(s);
      FitHasNoNul(s[Width(s)..], room - |EncodeFirst(s)|);
    }
  }

  lemma FirstHasNoNul(s: Text)
    requires s != [] && s[0] != 0
    ensures forall i :: 0 <= i < |EncodeFirst(s)| ==> EncodeFirst(s)[i] != 0
  {
  }

  /** A path put back together from its two encoded sides. */
  lemma RejoinEncoded(cut: NameSplit)
    ensures JoinPath(Encode(cut.prefix), Encode(cut.name)) == Encode(Rejoin(cut))
  {
    EncodeAround(cut.prefix, SLASH, cut.name);
    EncodeLength(cut.prefix);
  }

  lemma TextReads(s: Text, width: nat)
    requires NoNul(s) && |Encode(s)| <= width
    ensures CString(Padded(Encode(s), width)) == Encode(s)
  {
    EncodeKeepsAscii(s, 0);
    CStringOfPadded(Encode(s), width - |Encode(s)|);
  }

  lemma NameFieldsRead(info: HeaderInfo, typeflag: Byte)
    requires NoNul(info.name)
    ensures var b, cut := HeaderBytes(info, typeflag), SplitName(info.name);
      CString(b[345..500]) == Encode(cut.prefix) && CString(b[..100]) == Encode(cut.name)
  {
    var b, cut := HeaderBytes(info, typeflag), SplitName(info.name);
    CutHasNoNul(info.name);
    assert b[..100] == Padded(Encode(cut.name), 100) && |Encode(cut.name)| <= 100 by {
      HeaderSlices(info, typeflag);
      FrontSlices(info);
      assert b[..100] == b[..148][..100];
    }
    assert b[345..500] == Padded(Encode(cut.prefix), 155) && |Encode(cut.prefix)| <= 155 by {
      HeaderSlices(info, typeflag);
      BackSlices(info, typeflag);
      assert b[345..500] == b[156..][189..344];
    }
    TextReads(cut.name, 100);
    TextReads(cut.prefix, 155);
  }

  lemma LinkFieldReads(info: HeaderInfo, typeflag: Byte)
    requires info.linkname.Some? ==> NoNul(info.linkname.value)
    ensures CString(HeaderBytes(info, typeflag)[157..257]) == LinkBytes(info.linkname)
  {
    var b, link := HeaderBytes(info, typeflag), LinkBytes(info.linkname);
    assert b[157..257] == Padded(link, 100) by {
      HeaderSlices(info, typeflag);
      BackSlices(info, typeflag);
      assert b[157..257] == b[156..][1..101];
    }
    if info.linkname.Some? {
      FitHasNoNul(info.linkname.value, LINK_WIDTH);
    }
    CStringOfPadded(link, 100 - |link|);
  }

  lemma NumberFieldsAre(info: HeaderInfo, typeflag: Byte)
    ensures var b := HeaderBytes(info, typeflag);
      && b[100..108] == OctalField(info.mode % 4096, 8)
      && b[108..116] == OctalField(0, 8) && b[116..124] == OctalField(0, 8)
      && b[124..136] == OctalField(info.size, 12) && b[136..148] == OctalField(info.mtime, 12)
  {
    var b := HeaderBytes(info, typeflag);
    HeaderSlices(info, typeflag);
    FrontSlices(info);
    assert b[100..108] == b[..148][100..108];
    assert b[108..116] == b[..148][108..116] && b[116..124] == b[..148][116..124];
    assert b[124..136] == b[..148][124..136] && b[136..148] == b[..148][136..148];
  }

  /** Permission bits always fit their field. */
  lemma ModeReads(mode: nat)
    requires mode < 4096
    ensures ReadOctal(OctalField(mode, 8)) == Some(mode)
  {
    OctalRoundTrip(mode, 8);
    assert Power(8, 7) >= 4096 by {
      assert Power(8, 1) == 8 && Power(8, 2) == 64 && Power(8, 3) == 512 && Power(8, 4) == 4096;
      PowerMonotone(8, 4, 7);
    }
  }

  lemma MarksRead(info: HeaderInfo, typeflag: Byte)
    ensures var b := HeaderBytes(info, typeflag);
      b[156] == typeflag && b[257..263] == USTAR && b[263..265] == USTAR_VERSION
  {
    var b := HeaderBytes(info, typeflag);
    HeaderSlices(info, typeflag);
    BackSlices(info, typeflag);
    assert b[156] == b[156..][0];
    assert b[257..263] == b[156..][101..107] && b[263..265] == b[156..][107..109];
  }

  /** A block whose checksum, marks and mode are right parses as far as its size and time do. */
  lemma ParseKnown(b: seq<Byte>, mode: nat)
    requires |b| == BLOCK && ReadOctal(b[148..156]) == Some(Sum(b[..148]) + 8 * 32 + Sum(b[156..]))
    requires b[257..263] == USTAR && b[263..265] == USTAR_VERSION && ReadOctal(b[100..108]) == Some(mode)
    requires ReadOctal(b[108..116]) == Some(0) && ReadOctal(b[116..124]) == Some(0)
    ensures var size, mtime := ReadOctal(b[124..136]), ReadOctal(b[136..148]);
      var path := JoinPath(CString(b[345..500]), CString(b[..100]));
      ParseHeader(b) == if size.Some? && mtime.Some?
                        then Some(Header(path, mode, (0, 0), size.value, mtime.value, b[156], CString(b[157..257])))
                        else None
  {
  }

  /** How every written header reads back. */
  lemma HeaderRoundTrip(info: HeaderInfo, typeflag: Byte)
    requires NoNul(info.name) && (info.linkname.Some? ==> NoNul(info.linkname.value))
    ensures ParseHeader(HeaderBytes(info, typeflag)) == Parsed(info, typeflag)
  {
    hide HeaderBytes, ParseHeader, ReadOctal, OctalField, SplitName, Encode, CString, Sum, JoinPath, Rejoin, LinkBytes;
    var b := HeaderBytes(info, typeflag);
    ChecksumReads(info, typeflag);
    MarksRead(info, typeflag);
    NumberFieldsAre(info, typeflag);
    ModeReads(info.mode % 4096);
    ModeReads(0);
    ParseKnown(b, info.mode % 4096);
    NameFieldsRead(info, typeflag);
    RejoinEncoded(SplitName(info.name));
    LinkFieldReads(info, typeflag);
    NumberReads(info.size);
    NumberReads(info.mtime);
  }

  /** A written header is never mistaken for the end of the archive. */
  lemma HeaderIsNotZero(info: HeaderInfo, typeflag: Byte)
    ensures HeaderBytes(info, typeflag) != Zeros(BLOCK)
  {
    var b := HeaderBytes(info, typeflag);
    HeaderSlices(info, typeflag);
    BackSlices(info, typeflag);
    assert b[257] == b[156..][101..107][0] == 117;
  }
}
