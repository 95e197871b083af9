/** What the plan promises about the stream, and what a POSIX reader makes of it. */
module TarTheorems {
  import opened Bytes
  import opened Utf8
  import opened TarFields
  import opened TarHeader
  import opened Pax
  import opened TarReader
  import opened TarArchive

  // ---- exact length --------------------------------------------------------------------------

  /** Every byte that the plan counts for this entry's content is also written. */
  predicate Accounted(entry: TarEntry) {
    entry.size > 0 ==> Streams(entry)
  }

  lemma WholeBlocks(a: nat, b: nat)
    requires a % 512 == 0 && b % 512 == 0
    ensures (a + b) % 512 == 0
  {
  }

  lemma NoBlocks(n: nat)
    ensures RoundUp(n) == 0 <==> n == 0
  {
  }

  lemma PaxLength(entry: TarEntry)
    ensures |PaxImage(entry)| == EntryBytes(entry) - BLOCK - RoundUp(entry.size)
    ensures |PaxImage(entry)| % BLOCK == 0
  {
    var pax := PaxData(entry);
    if pax.Some? {
      DataBlocks(HeaderBytes(PaxInfo(entry, |pax.value|), PAX_FLAG), pax.value);
    }
  }

  lemma DataBlocks(header: seq<Byte>, data: seq<Byte>)
    requires |header| == BLOCK
    ensures |header + Block(data)| == BLOCK + RoundUp(|data|) && |header + Block(data)| % BLOCK == 0
  {
    WholeBlocks(BLOCK, RoundUp(|data|));
  }

  lemma ImageLength(entry: TarEntry, content: seq<Byte>)
    ensures |EntryImage(entry, content)| == BLOCK + if Streams(entry) then RoundUp(entry.size) else 0
    ensures |EntryImage(entry, content)| % BLOCK == 0
  {
    WholeBlocks(BLOCK, RoundUp(entry.size));
  }

  lemma EntryLength(entry: TarEntry, content: seq<Byte>)
    ensures |PaxImage(entry) + EntryImage(entry, content)| <= EntryBytes(entry)
    ensures |PaxImage(entry) + EntryImage(entry, content)| == EntryBytes(entry) <==> Accounted(entry)
    ensures |PaxImage(entry) + EntryImage(entry, content)| % BLOCK == 0
  {
    hide PaxImage, EntryImage, EntryBytes, RoundUp;
    NoBlocks(entry.size);
    PaxLength(entry);
    ImageLength(entry, content);
    WholeBlocks(|PaxImage(entry)|, |EntryImage(entry, content)|);
  }

  /**
   * The announced length is the written length, whatever the files deliver, exactly when every
   * entry with a size is a file with a source; the stream is always whole blocks and never longer
   * than announced.
   */
  lemma {:induction false} ExactLength(entries: seq<TarEntry>, contents: seq<seq<Byte>>)
    requires |contents| == |entries|
    ensures |Archive(entries, contents)| % BLOCK == 0
    ensures |Archive(entries, contents)| <= PlannedBytes(entries)
    ensures |Archive(entries, contents)| == PlannedBytes(entries) <==>
      forall i :: 0 <= i < |entries| ==> Accounted(entries[i])
  {
    hide PaxImage, EntryImage, EntryBytes, Accounted;
    if entries != [] {
      var here := PaxImage(entries[0]) + EntryImage(entries[0], contents[0]);
      var rest := Archive(entries[1..], contents[1..]);
      EntryLength(entries[0], contents[0]);
      ExactLength(entries[1..], contents[1..]);
      assert Archive(entries, contents) == here + rest;
      WholeBlocks(|here|, |rest|);
      SplitAccounted(entries);
      BothMeet(|here|, EntryBytes(entries[0]), |rest|, PlannedBytes(entries[1..]));
    }
  }

  lemma BothMeet(a: nat, x: nat, b: nat, y: nat)
    requires a <= x && b <= y
    ensures a + b <= x + y && (a + b == x + y <==> a == x && b == y)
  {
  }

  lemma SplitAccounted(entries: seq<TarEntry>)
    requires entries != []
    ensures (forall i :: 0 <= i < |entries| ==> Accounted(entries[i]))
       <==> Accounted(entries[0]) && forall i :: 0 <= i < |entries[1..]| ==> Accounted(entries[1..][i])
  {
    assert forall i :: 0 < i < |entries| ==> entries[i] == entries[1..][i - 1];
  }

  // ---- round trip ----------------------------------------------------------------------------

  /** The longest text the runtime can hold, in UTF-16 units. */
  const MAX_TEXT: nat := 0x1FFF_FFE8

  function LinkText(entry: TarEntry): Text {
    if entry.linkname.Some? then entry.linkname.value else []
  }

  /** An entry as the packer's callers build it. */
  predicate WellFormed(entry: TarEntry) {
    && NoNul(entry.name) && |entry.name| <= MAX_TEXT
    && NoNul(LinkText(entry)) && |LinkText(entry)| <= MAX_TEXT
    && (entry.kind == File && entry.size > 0 ==> entry.source.Some?)
  }

  /** The member a reader reports for an entry: it belongs to nobody, and times before 1970 are written as 0. */
  function Reported(entry: TarEntry, content: seq<Byte>): Member {
    Member(Encode(entry.name), Some(entry.kind), Encode(LinkText(entry)), entry.mode % 4096, (0, 0),
           if entry.mtimeSec < 0 then 0 else entry.mtimeSec, entry.size,
           if Streams(entry) then Exactly(content, entry.size) else [])
  }

  predicate Representable(entry: TarEntry) {
    FitsField(entry.size) && FitsField(entry.mtimeSec)
  }

  /** What the extended header, if any, should override. */
  function PaxOverrides(entry: TarEntry): Overrides {
    Overrides(if NeedsPath(entry) then Some(Encode(entry.name)) else None,
              if NeedsLinkpath(entry) then Some(Encode(LinkText(entry))) else None)
  }

  lemma PaxKeys()
    ensures EQUALS !in PATH_KEY && EQUALS !in LINKPATH_KEY
    ensures Encode(PATH_KEY) == PATH && Encode(LINKPATH_KEY) == LINKPATH
  {
    hide Encode;
    FourLetters(112, 97, 116, 104);
    FourLetters(108, 105, 110, 107);
    EncodeConcat([108, 105, 110, 107], PATH_KEY);
  }

  lemma FourLetters(a: Unit, b: Unit, c: Unit, d: Unit)
    requires a < 0x80 && b < 0x80 && c < 0x80 && d < 0x80
    ensures Encode([a, b, c, d]) == [a, b, c, d]
  {
    EncodeAscii([a, b, c, d]);
  }

  lemma RecordIsNotEmpty(key: Text, value: Text)
    ensures Record(key, value) != [] && Encode(Record(key, value)) != []
    ensures Record(key, value)[|Record(key, value)| - 1] == NEWLINE
    ensures |Encode(Record(key, value))| <= 2 * (|Encode(key)| + |Encode(value)| + 3) + 2
  {
    EncodeRecord(key, value);
    EncodeBody(key, value);
  }

  lemma ParseOneRecord(key: Text, value: Text, rest: seq<Byte>, seen: Overrides)
    requires EQUALS !in key && (Encode(key) == PATH || Encode(key) == LINKPATH)
    ensures ParsePax(Encode(Record(key, value)) + rest, seen)
         == if Encode(key) == PATH then ParsePax(rest, seen.(path := Some(Encode(value))))
            else ParsePax(rest, seen.(link := Some(Encode(value))))
  {
    ParseOfRecord(key, value, rest);
    RecordIsNotEmpty(key, value);
  }

  /** The bytes of the two records; either may be missing. */
  lemma PaxBytes(entry: TarEntry) returns (path: seq<Byte>, link: seq<Byte>)
    requires PaxData(entry).Some?
    ensures path == if NeedsPath(entry) then Encode(Record(PATH_KEY, entry.name)) else []
    ensures link == if NeedsLinkpath(entry) then Encode(Record(LINKPATH_KEY, LinkText(entry))) else []
    ensures PaxData(entry).value == path + link
  {
    hide Record, NeedsPath, NeedsLinkpath;
    var first := if NeedsPath(entry) then Record(PATH_KEY, entry.name) else [];
    var second := if NeedsLinkpath(entry) then Record(LINKPATH_KEY, LinkText(entry)) else [];
    OnlyLinks(entry);
    if NeedsPath(entry) {
      RecordIsNotEmpty(PATH_KEY, entry.name);
    }
    EncodeConcat(first, second);
    path, link := Encode(first), Encode(second);
  }

  lemma OnlyLinks(entry: TarEntry)
    ensures NeedsLinkpath(entry) ==> entry.linkname.Some?
  {
  }

  lemma ParsePaxData(entry: TarEntry)
    requires PaxData(entry).Some?
    ensures ParsePax(PaxData(entry).value, NO_OVERRIDES) == Some(PaxOverrides(entry))
  {
    hide Encode, Record, NeedsPath, NeedsLinkpath, PaxData;
    PaxKeys();
    var path, link := PaxBytes(entry);
    var afterPath := Overrides(PaxOverrides(entry).path, None);
    if NeedsPath(entry) {
      ParseOneRecord(PATH_KEY, entry.name, link, NO_OVERRIDES);
    } else {
      assert path + link == link;
    }
    assert ParsePax(PaxData(entry).value, NO_OVERRIDES) == ParsePax(link, afterPath);
    if NeedsLinkpath(entry) {
      ParseOneRecord(LINKPATH_KEY, LinkText(entry), [], afterPath);
      assert link + [] == link;
    }
  }

  /** The extended header's own size always fits, since no name can be that long. */
  lemma PaxDataFits(entry: TarEntry)
    requires WellFormed(entry) && PaxData(entry).Some?
    ensures FitsField(|PaxData(entry).value|)
  {
    PaxKeys();
    var path := if NeedsPath(entry) then Record(PATH_KEY, entry.name) else [];
    var link := if NeedsLinkpath(entry) then Record(LINKPATH_KEY, LinkText(entry)) else [];
    if NeedsPath(entry) {
      RecordIsNotEmpty(PATH_KEY, entry.name);
      EncodeLength(entry.name);
    }
    if NeedsLinkpath(entry) {
      RecordIsNotEmpty(LINKPATH_KEY, LinkText(entry));
      EncodeLength(LinkText(entry));
    }
    EncodeConcat(path, link);
  }

  lemma PaxNameHasNoNul(name: Text)
    requires NoNul(name)
    ensures NoNul(PaxHeaderName(name))
  {
    var parts := Split(name, SLASH);
    LastPartHasNoNul(name);
    assert NoNul(PAX_HEADERS + parts[|parts| - 1]);
  }

  lemma {:induction false} LastPartHasNoNul(name: Text)
    requires NoNul(name)
    ensures forall i :: 0 <= i < |Split(name, SLASH)| ==> NoNul(Split(name, SLASH)[i])
  {
    if name != [] {
      LastPartHasNoNul(name[1..]);
    }
  }

  /** One header block and what follows it, as the reader takes them. */
  lemma StepIs(block: seq<Byte>, data: seq<Byte>, size: nat, rest: seq<Byte>)
    requires |block| == BLOCK && block != Zeros(BLOCK)
    requires ParseHeader(block).Some? && size == DataSize(ParseHeader(block).value) && |data| == RoundUp(size)
    ensures NextStep(block + (data + rest)) == Found(ParseHeader(block).value, data[..size], rest)
  {
    var s := block + (data + rest);
    assert s[..BLOCK] == block;
    TakeIs(ParseHeader(block).value, block, data, rest);
  }

  lemma TakeIs(h: Header, block: seq<Byte>, data: seq<Byte>, rest: seq<Byte>)
    requires |block| == BLOCK && |data| == RoundUp(DataSize(h))
    ensures TakeData(h, block + (data + rest)) == Found(h, data[..DataSize(h)], rest)
  {
    var s := block + (data + rest);
    assert s[BLOCK..BLOCK + DataSize(h)] == data[..DataSize(h)];
    assert s[BLOCK + RoundUp(DataSize(h))..] == rest;
  }

  // ---- when there is an extended header, and what its own block says ---------------------------------

  /**
   * A path record is written exactly for a name of more than 100 bytes that has no slash to be cut at, or
   * whose first such slash is its first character; a linkpath record for a target of more than 100 bytes.
   */
  lemma PaxNeeds(entry: TarEntry)
    ensures NeedsPath(entry) <==>
      |Encode(entry.name)| > 100 && (CutsAt(entry.name, 0) || forall p: nat :: !CutsAt(entry.name, p))
    ensures NeedsLinkpath(entry) <==> |Encode(LinkText(entry))| > 100
    ensures PaxData(entry).Some? <==> NeedsPath(entry) || NeedsLinkpath(entry)
  {
    hide Encode, SplitName;
    var full, cut := entry.name, SplitName(entry.name);
    SplitNameIs(full);
    NoLink();
    if |Encode(full)| > 100 {
      if exists p: nat :: CutsAt(full, p) {
        var p: nat :| CutsAt(full, p) && (forall q: nat :: q < p ==> !CutsAt(full, q))
          && cut == NameSplit(full[p + 1..], full[..p]);
        CutRejoins(full, p);
      } else {
        assert cut == NameSplit(TruncateUtf8(full, 100), []);
        assert TruncateUtf8(full, 100) != full;
      }
    }
  }

  lemma NoLink()
    ensures |Encode([])| == 0
  {
  }

  lemma CutRejoins(full: Text, p: nat)
    requires CutsAt(full, p)
    ensures Rejoin(NameSplit(full[p + 1..], full[..p])) == full <==> p != 0
  {
    assert full == full[..p] + [SLASH] + full[p + 1..];
    if p == 0 {
      assert |Rejoin(NameSplit(full[1..], full[..0]))| == |full| - 1;
    }
  }

  function Ascii(s: string): (t: Text)
    ensures |t| == |s|
  {
    seq(|s|, i requires 0 <= i < |s| => if s[i] < '\U{80}' then s[i] as int else 0)
  }

  /** The part of a path behind its last slash. */
  ghost predicate IsLastPart(base: Text, name: Text) {
    SLASH !in base && (base == name || exists dir: Text :: name == dir + [SLASH] + base)
  }

  lemma {:induction false} LastOfSplit(name: Text)
    ensures var parts := Split(name, SLASH); IsLastPart(parts[|parts| - 1], name)
    ensures |Split(name, SLASH)| == 1 ==> Split(name, SLASH)[0] == name
    ensures |Split(name, SLASH)| > 1 ==> SLASH in name
  {
    if name != [] {
      var rest, parts := Split(name[1..], SLASH), Split(name, SLASH);
      LastOfSplit(name[1..]);
      var base := rest[|rest| - 1];
      assert name == [name[0]] + name[1..];
      if |rest| == 1 {
        if name[0] == SLASH {
          assert name == [] + [SLASH] + base;
        }
      } else {
        assert parts[|parts| - 1] == base;
        MoreParts(name, base);
      }
    }
  }

  lemma MoreParts(name: Text, base: Text)
    requires name != [] && IsLastPart(base, name[1..]) && SLASH in name[1..]
    ensures IsLastPart(base, name)
  {
    assert base != name[1..];
    var dir: Text :| name[1..] == dir + [SLASH] + base;
    assert name == [name[0]] + dir + [SLASH] + base;
  }

  /**
   * The block of an extended header is one itself: named `PaxHeaders/` and the last part of the name, cut to
   * 100 bytes, readable by all, as large as its data and as old as the entry.
   */
  lemma PaxHeaderReads(entry: TarEntry) returns (base: Text)
    requires WellFormed(entry) && PaxData(entry).Some? && FitsField(entry.mtimeSec)
    ensures IsLastPart(base, entry.name)
    ensures var n := |PaxData(entry).value|;
      ParseHeader(HeaderBytes(PaxInfo(entry, n), PAX_FLAG)) ==
        Some(Header(Encode(TruncateUtf8(Ascii("PaxHeaders/") + base, 100)), 0x1A4, (0, 0), n,
                    if entry.mtimeSec < 0 then 0 else entry.mtimeSec, 120, []))
  {
    hide WellFormed, PaxData, Encode, Split, SplitName, HeaderBytes, ParseHeader, IsLastPart, Rejoin, Ascii;
    var parts := Split(entry.name, SLASH);
    base := parts[|parts| - 1];
    LastOfSplit(entry.name);
    PaxDataFits(entry);
    NameHasNoNul(entry);
    PaxNameHasNoNul(entry.name);
    var info := PaxInfo(entry, |PaxData(entry).value|);
    HeaderRoundTrip(info, PAX_FLAG);
    HeadersText();
    ShortNameStays(info.name);
  }

  lemma NameHasNoNul(entry: TarEntry)
    requires WellFormed(entry)
    ensures NoNul(entry.name)
  {
  }

  lemma HeadersText()
    ensures Ascii("PaxHeaders/") == PAX_HEADERS
  {
  }

  lemma ShortNameStays(name: Text)
    requires |Encode(name)| <= 100
    ensures Rejoin(SplitName(name)) == name
  {
  }

  /** The reader turns an extended header into overrides for what follows. */
  lemma ReadPax(entry: TarEntry, rest: seq<Byte>)
    requires WellFormed(entry) && PaxData(entry).Some?
    ensures ReadArchive(PaxImage(entry) + rest, NO_OVERRIDES)
         == if FitsField(entry.mtimeSec) then ReadArchive(rest, PaxOverrides(entry)) else None
  {
    var pax := PaxData(entry).value;
    var info := PaxInfo(entry, |pax|);
    PaxDataFits(entry);
    PaxNameHasNoNul(entry.name);
    HeaderRoundTrip(info, PAX_FLAG);
    HeaderIsNotZero(info, PAX_FLAG);
    var block := HeaderBytes(info, PAX_FLAG);
    Associate(block, Block(pax), rest);
    if FitsField(entry.mtimeSec) {
      StepIs(block, Block(pax), |pax|, rest);
      assert Block(pax)[..|pax|] == pax;
      ParsePaxData(entry);
    } else {
      UnreadableStep(block, Block(pax) + rest);
    }
  }

  lemma UnreadableStep(block: seq<Byte>, rest: seq<Byte>)
    requires |block| == BLOCK && block != Zeros(BLOCK) && ParseHeader(block) == None
    ensures NextStep(block + rest) == Bad
  {
    assert (block + rest)[..BLOCK] == block;
  }

  /** The reader takes an entry for what it is. */
  lemma FlagReads(kind: EntryType)
    ensures TypeOf(TypeflagOf(kind)) == Some(kind)
    ensures !IsExtended(TypeflagOf(kind)) && IsExtended(PAX_FLAG)
  {
  }

  /** The header fields of an entry together with its overrides describe the entry. */
  lemma OverridesComplete(entry: TarEntry, content: seq<Byte>)
    requires Representable(entry)
    ensures Apply(Parsed(EntryInfo(entry), TypeflagOf(entry.kind)).value, PaxOverrides(entry), content)
         == Reported(entry, []).(content := content)
  {
    FlagReads(entry.kind);
    assert !NeedsLinkpath(entry) ==> LinkBytes(entry.linkname) == Encode(LinkText(entry));
  }

  /** The data that follows an entry's header, and how much of it the reader takes. */
  lemma EntryData(entry: TarEntry, content: seq<Byte>) returns (data: seq<Byte>, size: nat)
    requires WellFormed(entry)
    ensures size == if entry.kind == File then entry.size else 0
    ensures |data| == RoundUp(size)
    ensures data[..size] == if Streams(entry) then Exactly(content, entry.size) else []
    ensures EntryImage(entry, content) == HeaderBytes(EntryInfo(entry), TypeflagOf(entry.kind)) + data
  {
    size := if entry.kind == File then entry.size else 0;
    data := if Streams(entry) then Block(Exactly(content, entry.size)) else [];
  }

  /** What stands at the front of an archive whose next entry is `entry`. */
  lemma EntryStep(entry: TarEntry, content: seq<Byte>, rest: seq<Byte>)
    requires WellFormed(entry)
    ensures NextStep(EntryImage(entry, content) + rest)
         == if !Representable(entry) then Bad
            else Found(Parsed(EntryInfo(entry), TypeflagOf(entry.kind)).value,
                       if Streams(entry) then Exactly(content, entry.size) else [], rest)
  {
    var info, flag := EntryInfo(entry), TypeflagOf(entry.kind);
    var block := HeaderBytes(info, flag);
    HeaderRoundTrip(info, flag);
    HeaderIsNotZero(info, flag);
    var data, size := EntryData(entry, content);
    Associate(block, data, rest);
    if Representable(entry) {
      StepIs(block, data, size, rest);
    } else {
      UnreadableStep(block, data + rest);
    }
  }

  /** An entry with its extended header, read from the front of an archive. */
  lemma ReadEntry(entry: TarEntry, content: seq<Byte>, rest: seq<Byte>)
    requires WellFormed(entry)
    ensures ReadArchive(PaxImage(entry) + EntryImage(entry, content) + rest, NO_OVERRIDES)
         == if Representable(entry) then Cons(Reported(entry, content), ReadArchive(rest, NO_OVERRIDES)) else None
  {
    var image := EntryImage(entry, content);
    Associate(PaxImage(entry), image, rest);
    if PaxData(entry).Some? {
      ReadPax(entry, image + rest);
    } else {
      assert [] + (image + rest) == image + rest;
    }
    EntryStep(entry, content, rest);
    if Representable(entry) {
      OverridesComplete(entry, if Streams(entry) then Exactly(content, entry.size) else []);
    }
  }

  function AllReported(entries: seq<TarEntry>, contents: seq<seq<Byte>>): (ms: seq<Member>)
    requires |contents| == |entries|
  {
    if entries == [] then [] else [Reported(entries[0], contents[0])] + AllReported(entries[1..], contents[1..])
  }

  lemma ReadEnd()
    ensures ReadArchive(Zeros(2 * BLOCK), NO_OVERRIDES) == Some([])
  {
    assert Zeros(2 * BLOCK)[..BLOCK] == Zeros(BLOCK) && Zeros(2 * BLOCK)[BLOCK..2 * BLOCK] == Zeros(BLOCK);
  }

  /**
   * The round trip: a POSIX reader reports exactly the entries that were written, with their
   * names, link targets, types, permission bits, times and sizes, and each file's content cut or
   * zero-padded to its planned size. The only archives it rejects are those with a size or a time
   * of 8 to the 11th or more.
   */
  lemma {:induction false} RoundTrip(entries: seq<TarEntry>, contents: seq<seq<Byte>>)
    requires |contents| == |entries|
    requires forall i :: 0 <= i < |entries| ==> WellFormed(entries[i])
    ensures ReadArchive(Archive(entries, contents), NO_OVERRIDES)
         == if forall i :: 0 <= i < |entries| ==> Representable(entries[i])
            then Some(AllReported(entries, contents)) else None
  {
    hide PaxImage, EntryImage, ReadArchive, Reported, WellFormed, Representable;
    if entries == [] {
      ReadEnd();
    } else {
      ReadEntry(entries[0], contents[0], Archive(entries[1..], contents[1..]));
      RoundTrip(entries[1..], contents[1..]);
      assert forall i :: 0 < i < |entries| ==> entries[i] == entries[1..][i - 1];
    }
  }

  /** Read back as text, names and link targets are the entry's own, up to lone surrogates. */
  lemma NamesRoundTrip(entry: TarEntry, content: seq<Byte>)
    ensures Decode(Reported(entry, content).path) == Some(Scrub(entry.name))
    ensures Decode(Reported(entry, content).link) == Some(Scrub(LinkText(entry)))
    ensures Decode(Reported(entry, content).path) == Some(entry.name) <==> IsWellFormed(entry.name)
  {
    DecodeOfEncode(entry.name);
    DecodeOfEncode(LinkText(entry));
    ScrubFixes(entry.name);
  }
}
