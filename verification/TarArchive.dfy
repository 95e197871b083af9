/**
 * The archive: planned byte count, the generator that streams it, and the theorems that tie both
 * to the reader.
 */
module TarArchive {
  import opened Bytes
  import opened Utf8
  import opened TarFields
  import opened TarHeader
  import opened Pax
  import opened TarReader

  datatype TarEntry = TarEntry(name: Text, kind: EntryType, source: Option<Text>, size: nat, mode: int,
                               mtimeSec: int, linkname: Option<Text>)

  datatype TarPlan = TarPlan(entries: seq<TarEntry>, totalBytes: nat)

  function TypeflagOf(kind: EntryType): Byte {
    match kind
    case Dir => 53
    case Symlink => 50
    case File => 48
  }

  /** The type flag of an extended header. */
  const PAX_FLAG: Byte := 120

  const PATH_KEY: Text := [112, 97, 116, 104]
  const LINKPATH_KEY: Text := [108, 105, 110, 107] + PATH_KEY

  // ---- extended headers ----------------------------------------------------------------------

  predicate NeedsPath(entry: TarEntry) {
    Rejoin(SplitName(entry.name)) != entry.name
  }

  predicate NeedsLinkpath(entry: TarEntry) {
    entry.linkname.Some? && |Encode(entry.linkname.value)| > LINK_WIDTH
  }

  function PaxText(entry: TarEntry): Text {
    (if NeedsPath(entry) then Record(PATH_KEY, entry.name) else [])
    + (if NeedsLinkpath(entry) then Record(LINKPATH_KEY, entry.linkname.value) else [])
  }

  /** The data of the extended header, if the plain header cannot carry the whole entry. */
  function PaxData(entry: TarEntry): Option<seq<Byte>> {
    if NeedsPath(entry) || NeedsLinkpath(entry) then Some(Encode(PaxText(entry))) else None
  }

  method PaxDataFor(entry: TarEntry) returns (data: Option<seq<Byte>>)
    ensures data == PaxData(entry)
  {
    if !NeedsPath(entry) && !NeedsLinkpath(entry) {
      return None;
    }
    var parts: Text := [];
    if NeedsPath(entry) {
      parts := PaxRecord(PATH_KEY, entry.name);
    }
    if NeedsLinkpath(entry) {
      var record := PaxRecord(LINKPATH_KEY, entry.linkname.value);
      parts := parts + record;
    }
    assert parts == PaxText(entry);
    data := Some(Encode(parts));
  }

  const PAX_HEADERS: Text := [80, 97, 120, 72, 101, 97, 100, 101, 114, 115, 47]

  function PaxHeaderName(name: Text): Text {
    var parts := Split(name, SLASH);
    TruncateUtf8(PAX_HEADERS + parts[|parts| - 1], 100)
  }

  function PaxInfo(entry: TarEntry, size: nat): HeaderInfo {
    HeaderInfo(PaxHeaderName(entry.name), 420, size, entry.mtimeSec, None)
  }

  function EntryInfo(entry: TarEntry): HeaderInfo {
    HeaderInfo(entry.name, entry.mode, entry.size, entry.mtimeSec, entry.linkname)
  }

  // ---- the plan ------------------------------------------------------------------------------

  function EntryBytes(entry: TarEntry): nat {
    var pax := PaxData(entry);
    (if pax.None? then 0 else BLOCK + RoundUp(|pax.value|)) + BLOCK + RoundUp(entry.size)
  }

  function PlannedBytes(entries: seq<TarEntry>): nat {
    if entries == [] then 2 * BLOCK else EntryBytes(entries[0]) + PlannedBytes(entries[1..])
  }

  method PlanTarArchive(entries: seq<TarEntry>) returns (plan: TarPlan)
    ensures plan == TarPlan(entries, PlannedBytes(entries))
  {
    var total := 0;
    for i := 0 to |entries|
      invariant total + PlannedBytes(entries[i..]) == PlannedBytes(entries)
    {
      assert entries[i..][1..] == entries[i + 1..];
      total := total + EntryBytes(entries[i]);
    }
    plan := TarPlan(entries, total + 2 * BLOCK);
  }

  // ---- what is written -----------------------------------------------------------------------

  /** Content cut or padded with zeros to exactly `size` bytes. */
  function Exactly(content: seq<Byte>, size: nat): (r: seq<Byte>)
    ensures |r| == size
  {
    if |content| >= size then content[..size] else content + Zeros(size - |content|)
  }

  /** Is the entry's content read from disk and written? */
  predicate Streams(entry: TarEntry) {
    entry.kind == File && entry.source.Some? && entry.size > 0
  }

  function Block(b: seq<Byte>): (r: seq<Byte>)
    ensures |r| == RoundUp(|b|)
  {
    b + Zeros(RoundUp(|b|) - |b|)
  }

  function PaxImage(entry: TarEntry): seq<Byte> {
    var pax := PaxData(entry);
    if pax.None? then [] else HeaderBytes(PaxInfo(entry, |pax.value|), PAX_FLAG) + Block(pax.value)
  }

  function EntryImage(entry: TarEntry, content: seq<Byte>): seq<Byte> {
    HeaderBytes(EntryInfo(entry), TypeflagOf(entry.kind))
    + (if Streams(entry) then Block(Exactly(content, entry.size)) else [])
  }

  /** The whole archive, given what each source file delivers when it is read. */
  function Archive(entries: seq<TarEntry>, contents: seq<seq<Byte>>): seq<Byte>
    requires |contents| == |entries|
  {
    if entries == [] then Zeros(2 * BLOCK)
    else PaxImage(entries[0]) + EntryImage(entries[0], contents[0]) + Archive(entries[1..], contents[1..])
  }

  /**
   * Copy a file's chunks, at most `size` bytes of them, and make up for missing bytes with zeros.
   * `chunks` is whatever arrives before the stream ends or fails; a file that cannot be opened
   * delivers nothing.
   */
  method StreamFileExactly(chunks: seq<seq<Byte>>, size: nat) returns (out: seq<seq<Byte>>)
    ensures Flatten(out) == Exactly(Flatten(chunks), size)
  {
    hide Exactly, Flatten;
    out := [];
    var sent := 0;
    var i := 0;
    NothingYet(chunks);
    while i < |chunks|
      invariant i <= |chunks| && sent == |Flatten(out)| <= size
      invariant Exactly(Flatten(out) + Flatten(chunks[i..]), size) == Exactly(Flatten(chunks), size)
      invariant sent < size ==> Flatten(out) + Flatten(chunks[i..]) == Flatten(chunks)
    {
      if sent >= size {
        break;
      }
      var buf := chunks[i];
      var slice := if sent + |buf| > size then buf[..size - sent] else buf;
      FlattenFirst(chunks, i);
      FlattenSnoc(out, slice);
      StepExactly(Flatten(out), buf, Flatten(chunks[i + 1..]), slice, size);
      sent := sent + |slice|;
      out := out + [slice];
      i := i + 1;
    }
    StreamEnd(Flatten(out), chunks, i, size);
    if sent < size {
      FlattenSnoc(out, Zeros(size - sent));
      out := out + [Zeros(size - sent)];
    }
  }

  lemma NothingYet(chunks: seq<seq<Byte>>)
    ensures |Flatten<Byte>([])| == 0 && Flatten<Byte>([]) + Flatten(chunks[0..]) == Flatten(chunks)
  {
    assert chunks[0..] == chunks;
  }

  lemma FlattenFirst(chunks: seq<seq<Byte>>, i: nat)
    requires i < |chunks|
    ensures Flatten(chunks[i..]) == chunks[i] + Flatten(chunks[i + 1..])
  {
    assert chunks[i..][1..] == chunks[i + 1..];
  }

  lemma StreamEnd(done: seq<Byte>, chunks: seq<seq<Byte>>, i: nat, size: nat)
    requires i <= |chunks| && |done| <= size && (|done| < size ==> i == |chunks|)
    requires |done| < size ==> done + Flatten(chunks[i..]) == Flatten(chunks)
    ensures Exactly(done + Flatten(chunks[i..]), size) == done + Zeros(size - |done|)
  {
    if |done| < size {
      assert chunks[i..] == [];
    }
  }

  lemma StepExactly(done: seq<Byte>, buf: seq<Byte>, rest: seq<Byte>, slice: seq<Byte>, size: nat)
    requires |done| < size
    requires slice == if |done| + |buf| > size then buf[..size - |done|] else buf
    ensures Exactly(done + slice + rest, size) == Exactly(done + (buf + rest), size)
    ensures |done| + |slice| < size ==> done + slice + rest == done + (buf + rest)
  {
    if |done| + |buf| > size {
      assert (done + slice + rest)[..size] == done + slice;
      assert (done + (buf + rest))[..size] == done + slice;
    } else {
      assert done + slice + rest == done + (buf + rest);
    }
  }

  method Padding(size: nat) returns (out: seq<seq<Byte>>)
    ensures Flatten(out) == Zeros(RoundUp(size) - size)
  {
    var pad := RoundUp(size) - size;
    out := if pad > 0 then [Zeros(pad)] else [];
    if pad > 0 {
      FlattenSnoc([], Zeros(pad));
      assert [] + [Zeros(pad)] == [Zeros(pad)];
    }
  }

  /** The extended header of an entry, its data and its padding, if it needs one. */
  method GeneratePax(entry: TarEntry) returns (out: seq<seq<Byte>>)
    ensures Flatten(out) == PaxImage(entry)
  {
    out := [];
    var pax := PaxDataFor(entry);
    if pax.Some? {
      var header := BuildHeader(PaxInfo(entry, |pax.value|), PAX_FLAG);
      var pad := Padding(|pax.value|);
      out := [header[..]] + ([pax.value] + pad);
      FlattenThree(header[..], pax.value, pad);
    }
  }

  lemma FlattenThree(a: seq<Byte>, b: seq<Byte>, c: seq<seq<Byte>>)
    ensures Flatten([a] + ([b] + c)) == a + (b + Flatten(c))
  {
    assert ([a] + ([b] + c))[1..] == [b] + c;
    assert ([b] + c)[1..] == c;
  }

  /** The header of an entry and its content. */
  method GenerateBody(entry: TarEntry, chunks: seq<seq<Byte>>) returns (out: seq<seq<Byte>>)
    ensures Flatten(out) == EntryImage(entry, Flatten(chunks))
  {
    var header := BuildHeader(EntryInfo(entry), TypeflagOf(entry.kind));
    out := [header[..]];
    FlattenSnoc([], header[..]);
    assert [] + out == out;
    if entry.kind == File && entry.source.Some? && entry.size > 0 {
      var body := StreamFileExactly(chunks, entry.size);
      var pad := Padding(entry.size);
      FlattenConcat(body, pad);
      FlattenConcat(out, body + pad);
      out := out + (body + pad);
    }
  }

  lemma FlattenPair(a: seq<Byte>, b: seq<Byte>)
    ensures Flatten([a, b]) == a + b
  {
    FlattenSnoc([a], b);
    FlattenSnoc([], a);
    assert [] + [a] == [a] && [a] + [b] == [a, b];
  }

  /** What each source file delivers, its chunks put together. */
  function Contents(streams: seq<seq<seq<Byte>>>): (c: seq<seq<Byte>>)
    ensures |c| == |streams|
  {
    if streams == [] then [] else [Flatten(streams[0])] + Contents(streams[1..])
  }

  /** The generator: whatever the source files deliver, the stream is the archive of the plan. */
  method GenerateTar(plan: TarPlan, streams: seq<seq<seq<Byte>>>) returns (out: seq<seq<Byte>>)
    requires |streams| == |plan.entries|
    ensures Flatten(out) == Archive(plan.entries, Contents(streams))
  {
    hide PaxImage, EntryImage, PlannedBytes;
    out := [];
    for i := 0 to |plan.entries|
      invariant Flatten(out) + Archive(plan.entries[i..], Contents(streams[i..]))
        == Archive(plan.entries, Contents(streams))
    {
      var pax := GeneratePax(plan.entries[i]);
      var body := GenerateBody(plan.entries[i], streams[i]);
      FlattenConcat(pax, body);
      FlattenConcat(out, pax + body);
      ghost var rest := ArchiveStep(plan.entries, streams, i, Flatten(pax), Flatten(body));
      Associate(Flatten(out), Flatten(pax) + Flatten(body), rest);
      out := out + (pax + body);
    }
    FlattenPair(Zeros(BLOCK), Zeros(BLOCK));
    FlattenConcat(out, [Zeros(BLOCK), Zeros(BLOCK)]);
    assert Zeros(BLOCK) + Zeros(BLOCK) == Zeros(2 * BLOCK);
    out := out + [Zeros(BLOCK), Zeros(BLOCK)];
  }

  lemma ArchiveStep(entries: seq<TarEntry>, streams: seq<seq<seq<Byte>>>, i: nat, pax: seq<Byte>, body: seq<Byte>)
    returns (rest: seq<Byte>)
    requires |streams| == |entries| && i < |entries|
    requires pax == PaxImage(entries[i]) && body == EntryImage(entries[i], Flatten(streams[i]))
    ensures rest == Archive(entries[i + 1..], Contents(streams[i + 1..]))
    ensures Archive(entries[i..], Contents(streams[i..])) == pax + body + rest
  {
    rest := Archive(entries[i + 1..], Contents(streams[i + 1..]));
    assert entries[i..][1..] == entries[i + 1..] && streams[i..][1..] == streams[i + 1..];
    assert Contents(streams[i..])[1..] == Contents(streams[i + 1..]);
  }
}
