/**
 * The size-rotated log writer: lines go to a stream, a full file is closed and the files shift by
 * one, and lines that arrive while the old stream is still closing wait in a list.
 */
module LogWriter {
  import opened Bytes

  /** A line, as the bytes of its UTF-8 encoding. */
  type Line = seq<Byte>
  type Chunk = seq<Byte>
  type Inode = nat

  const NEWLINE: Byte := 10

  /** What is written for a line: the line with one newline at its end. */
  function ChunkOf(line: Line): (c: Chunk)
    ensures c != [] && c[|c| - 1] == NEWLINE
  {
    if line != [] && line[|line| - 1] == NEWLINE then line else line + [NEWLINE]
  }

  function ChunksOf(lines: seq<Line>): seq<Chunk> {
    if lines == [] then [] else [ChunkOf(lines[0])] + ChunksOf(lines[1..])
  }

  lemma {:induction false} ChunksAppend(a: seq<Line>, b: seq<Line>)
    ensures ChunksOf(a + b) == ChunksOf(a) + ChunksOf(b)
  {
    if a == [] {
      assert a + b == b;
    } else {
      assert (a + b)[1..] == a[1..] + b;
      ChunksAppend(a[1..], b);
    }
  }

  function Size(chunks: seq<Chunk>): nat {
    if chunks == [] then 0 else Size(chunks[..|chunks| - 1]) + |chunks[|chunks| - 1]|
  }

  lemma {:induction false} SizeAppend(a: seq<Chunk>, b: seq<Chunk>)
    ensures Size(a + b) == Size(a) + Size(b)
  {
    if b == [] {
      assert a + b == a;
    } else {
      assert (a + b)[..|a + b| - 1] == a + b[..|b| - 1];
      SizeAppend(a, b[..|b| - 1]);
    }
  }

  // ---- the files ------------------------------------------------------------------------------

  /** Path 0 is the current log, path n its nth rotation. A path names an inode, and writes follow the inode. */
  datatype Files = Files(paths: map<nat, Inode>, data: map<Inode, seq<Chunk>>) {
    ghost predicate Sound() {
      && (forall i :: i in paths ==> paths[i] in data)
      && (forall i, j :: i in paths && j in paths && paths[i] == paths[j] ==> i == j)
    }

    function Content(i: nat): seq<Chunk> {
      if i in paths && paths[i] in data then data[paths[i]] else []
    }

    /** The contents of the paths n, n - 1, ..., 0 in that order: oldest first. */
    function Kept(n: nat): seq<Chunk> {
      if n == 0 then Content(0) else Content(n) + Kept(n - 1)
    }

    function Append(ino: Inode, chunks: seq<Chunk>): Files
      requires ino in data
    {
      this.(data := data[ino := data[ino] + chunks])
    }

    function Unlink(i: nat): Files {
      this.(paths := paths - {i})
    }

    /** `rename` moves the name; had the target existed, it would be lost. */
    function Rename(from: nat, to: nat): Files
      requires from in paths && to !in paths
    {
      this.(paths := (paths - {from})[to := paths[from]])
    }

    function Create(i: nat, ino: Inode): Files
      requires i !in paths && ino !in data
    {
      Files(paths[i := ino], data[ino := []])
    }
  }

  /** Appending to the current file appends to all that is kept. */
  lemma {:induction false} KeptAppend(fs: Files, n: nat, chunks: seq<Chunk>)
    requires fs.Sound() && 0 in fs.paths
    ensures fs.Append(fs.paths[0], chunks).Kept(n) == fs.Kept(n) + chunks
  {
    var fs' := fs.Append(fs.paths[0], chunks);
    if n == 0 {
    } else {
      KeptAppend(fs, n - 1, chunks);
      assert fs'.Content(n) == fs.Content(n);
      assert fs'.Kept(n) == fs.Content(n) + (fs.Kept(n - 1) + chunks);
    }
  }

  /** Name `j` stands for the same as before. */
  predicate SameName(before: Files, after: Files, j: nat) {
    (j in before.paths <==> j in after.paths) && (j in before.paths ==> before.paths[j] == after.paths[j])
  }

  /** Name `j` stands for what the name below it stood for before. */
  predicate FromBelow(before: Files, after: Files, j: nat) {
    && j > 0 && (j - 1 in before.paths <==> j in after.paths)
    && (j - 1 in before.paths ==> before.paths[j - 1] == after.paths[j])
  }

  /** Names 1 to `k` now stand for what 0 to `k - 1` stood for; higher names are as they were. */
  ghost predicate Shifted(before: Files, after: Files, k: nat) {
    && after.data == before.data && 0 !in after.paths
    && (forall j: nat :: 1 <= j <= k ==> FromBelow(before, after, j))
    && (forall j: nat :: j > k ==> SameName(before, after, j))
  }

  /** Names above `i + 1` are shifted already, `i + 1` is free, and those up to `i` are untouched. */
  ghost predicate ShiftedAbove(before: Files, after: Files, i: nat, k: nat) {
    && after.data == before.data && i + 1 !in after.paths && after.Sound()
    && (forall j: nat :: j <= i ==> SameName(before, after, j))
    && (forall j: nat :: i + 2 <= j <= k ==> FromBelow(before, after, j))
    && (forall j: nat :: j > k ==> SameName(before, after, j))
  }

  /** The file under `i`, if there is one, moves to the free name above. */
  function MoveUp(fs: Files, i: nat): Files
    requires i + 1 !in fs.paths
  {
    if i in fs.paths then fs.Rename(i, i + 1) else fs
  }

  lemma ShiftStep(before: Files, fs: Files, i: nat, k: nat)
    requires ShiftedAbove(before, fs, i, k) && i < k
    ensures i > 0 ==> ShiftedAbove(before, MoveUp(fs, i), i - 1, k)
    ensures i == 0 ==> Shifted(before, MoveUp(fs, i), k) && MoveUp(fs, i).Sound()
  {
    var fs' := MoveUp(fs, i);
    assert SameName(before, fs, i);
    assert fs'.Sound() && i !in fs'.paths && FromBelow(before, fs', i + 1);
    forall j: nat | j < i ensures SameName(before, fs', j) {
      assert SameName(before, fs, j);
    }
    forall j: nat | i + 1 <= j <= k ensures FromBelow(before, fs', j) {
      assert j == i + 1 || FromBelow(before, fs, j);
    }
    forall j: nat | j > k ensures SameName(before, fs', j) {
      assert SameName(before, fs, j);
    }
  }

  lemma ShiftStart(before: Files, k: nat)
    requires before.Sound() && k > 0
    ensures ShiftedAbove(before, before.Unlink(k), k - 1, k)
  {
  }

  lemma {:induction false} KeptShifted(before: Files, after: Files, k: nat, n: nat)
    requires Shifted(before, after, k) && 1 <= n <= k
    ensures after.Kept(n) == before.Kept(n - 1)
  {
    assert FromBelow(before, after, n);
    if n == 1 {
      assert after.Content(0) == [];
    } else {
      KeptShifted(before, after, k, n - 1);
    }
  }

  lemma {:induction false} KeptCreate(fs: Files, ino: Inode, n: nat)
    requires fs.Sound() && 0 !in fs.paths && ino !in fs.data
    ensures fs.Create(0, ino).Kept(n) == fs.Kept(n) && fs.Create(0, ino).Sound()
  {
    var fs' := fs.Create(0, ino);
    if n > 0 {
      KeptCreate(fs, ino, n - 1);
      assert fs'.Content(n) == fs.Content(n);
    }
  }

  // ---- the writer -------------------------------------------------------------------------------

  /** An open append stream: the inode it was opened on, and what it has accepted but not written yet. */
  datatype Stream = Stream(ino: Inode, buffered: seq<Chunk>)

  /** A file holds at most `maxBytes`, or nothing but one line that is larger by itself. */
  predicate Fits(chunks: seq<Chunk>, maxBytes: int) {
    (Size(chunks) <= maxBytes || |chunks| <= 1) && (Size(chunks) == 0 ==> chunks == [])
  }

  /** On a fresh start: all files are our own, and nothing is dropped before the path `last` was reached. */
  ghost predicate Tidy(paths: map<nat, Inode>, started: set<Inode>, files: seq<seq<Chunk>>, last: nat, maxBytes: int) {
    && (forall j :: j in paths ==> j <= |files| && paths[j] in started)
    && (forall i :: 0 <= i < |files| ==> Fits(files[i], maxBytes) && (i < last ==> files[i] == []))
  }

  /** After one more rotation it is so again. */
  lemma TidyShift(before: Files, after: Files, started: set<Inode>, files: seq<seq<Chunk>>, last: nat, maxBytes: int)
    requires before.Sound() && Tidy(before.paths, started, files, last, maxBytes)
    requires if last == 0 then after.paths == before.paths - {0} else Shifted(before, after, last)
    requires forall ino :: ino in started ==> ino in before.data && Fits(before.data[ino], maxBytes)
    ensures Tidy(after.paths, started, files + [before.Content(last)], last, maxBytes)
  {
    var files' := files + [before.Content(last)];
    forall j | j in after.paths ensures j <= |files'| && after.paths[j] in started {
      if last > 0 {
        assert SameName(before, after, j) || FromBelow(before, after, j);
      }
    }
    assert Fits(before.Content(last), maxBytes) by {
      assert Size([]) == 0;
    }
  }

  class RuntimeLogWriter {
    const maxBytes: int
    const maxFiles: int
    var fs: Files
    var ws: Option<Stream>
    /** The stream whose `end()` has been called and whose callback has not run yet. */
    var ending: Option<Stream>
    var size: nat
    var rotating: bool
    var pending: seq<Line>
    var idleWaiters: nat
    var nextIno: Inode
    /** What was there at the start, every line accepted since, and what rotations dropped. */
    ghost var initial: seq<Chunk>
    ghost var accepted: seq<Line>
    ghost var dropped: seq<Chunk>
    /** The same file by file, one for each rotation; nothing, if the highest path was still free. */
    ghost var droppedFiles: seq<seq<Chunk>>
    /** The files that this writer created by rotating, and whether there was no other at the start. */
    ghost var started: set<Inode>
    ghost var blank: bool

    /** The highest path that is kept. */
    function Last(): nat {
      if maxFiles - 1 <= 0 then 0 else maxFiles - 1
    }

    function Retained(): seq<Chunk>
      reads this`fs
    {
      fs.Kept(Last())
    }

    function Unwritten(): seq<Chunk>
      reads this`ws, this`ending
    {
      if ws.Some? then ws.value.buffered else if ending.Some? then ending.value.buffered else []
    }

    /** All the log there ever was, oldest first: dropped, in the files, in the stream, waiting. */
    ghost function Stock(): seq<Chunk>
      reads this`dropped, this`fs, this`ws, this`ending, this`pending
    {
      dropped + Retained() + Unwritten() + ChunksOf(pending)
    }

    /** A file as it will be when its stream has written everything. */
    ghost function Whole(ino: Inode): seq<Chunk>
      requires ino in fs.data
      reads this`fs, this`ws, this`ending
    {
      fs.data[ino] + if 0 in fs.paths && fs.paths[0] == ino then Unwritten() else []
    }

    ghost predicate Consistent()
      reads this`fs, this`nextIno, this`ws, this`ending, this`size, this`rotating, this`started
    {
      && fs.Sound() && (forall ino :: ino in fs.data ==> ino < nextIno)
      && (ws.Some? <==> !rotating) && (ending.Some? <==> rotating)
      // whichever stream is open writes to the inode that the current path names
      && (ws.Some? ==>
           0 in fs.paths && fs.paths[0] == ws.value.ino && size == Size(fs.data[ws.value.ino] + ws.value.buffered))
      && (ending.Some? ==> 0 in fs.paths && fs.paths[0] == ending.value.ino)
      && (forall ino :: ino in started ==> ino in fs.data && FileOk(Whole(ino)))
    }

    predicate FileOk(chunks: seq<Chunk>) {
      Fits(chunks, maxBytes)
    }

    /** What was dropped were whole files, and none before as many were kept as may be. */
    ghost predicate DropsOk()
      reads this`dropped, this`droppedFiles, this`fs, this`started, this`blank
    {
      dropped == Flatten(droppedFiles) && (blank ==> Tidy(fs.paths, started, droppedFiles, Last(), maxBytes))
    }

    ghost predicate Valid()
      reads this
    {
      && Consistent() && DropsOk()
      && Stock() == initial + ChunksOf(accepted)
      // lines wait exactly while a rotation is open
      && (pending != [] <==> rotating)
      && (idleWaiters > 0 ==> rotating)
    }

    /** Start on whatever files are there already. */
    constructor (files: Files, nextIno: Inode, maxBytes: int, maxFiles: int)
      requires files.Sound() && forall ino :: ino in files.data ==> ino < nextIno
      ensures Valid() && this.maxBytes == maxBytes && this.maxFiles == maxFiles
      ensures initial == files.Kept(Last()) && accepted == [] && dropped == [] && Retained() == initial && !rotating
      ensures droppedFiles == [] && (blank <==> files.paths == map[])
    {
      this.maxBytes, this.maxFiles, this.nextIno := maxBytes, maxFiles, nextIno;
      fs, ws, ending, size, rotating, pending, idleWaiters := files, None, None, 0, false, [], 0;
      accepted, dropped, started, droppedFiles, blank := [], [], {}, [], files.paths == map[];
      new;
      initial := fs.Kept(Last());
      OpenStream();
      NothingUnwritten();
      NothingAround(initial);
      NothingWaits(initial);
      hide Files.Kept, ChunksOf;
    }

    /** With an empty stream buffer every file is whole already. */
    lemma NothingUnwritten()
      requires Unwritten() == []
      ensures forall ino :: ino in fs.data ==> Whole(ino) == fs.data[ino]
      ensures ws.Some? && ws.value.ino in fs.data ==> fs.data[ws.value.ino] + ws.value.buffered == fs.data[ws.value.ino]
    {
    }

    /** Open the current file for appending, creating it if it is not there. */
    method OpenStream()
      requires fs.Sound() && (forall ino :: ino in fs.data ==> ino < nextIno) && ws.None? && ending.None?
      requires forall ino :: ino in started ==> ino in fs.data && FileOk(fs.data[ino])
      requires DropsOk() && (blank ==> 0 !in fs.paths)
      modifies this`fs, this`nextIno, this`size, this`ws, this`started
      ensures fs.Sound() && (forall ino :: ino in fs.data ==> ino < nextIno)
      ensures ws.Some? && ws.value.buffered == [] && 0 in fs.paths && ws.value.ino == fs.paths[0]
      ensures size == Size(fs.data[fs.paths[0]]) && (0 !in old(fs.paths) ==> size == 0)
      ensures Retained() == old(Retained()) && DropsOk()
      ensures forall ino :: ino in started ==> ino in fs.data && FileOk(fs.data[ino])
    {
      if 0 !in fs.paths {
        KeptCreate(fs, nextIno, Last());
        fs := fs.Create(0, nextIno);
        started := started + {nextIno};
        nextIno := nextIno + 1;
      }
      size := Size(fs.data[fs.paths[0]]);
      ws := Some(Stream(fs.paths[0], []));
    }

    /** The paths that exist, from the oldest to the current one. */
    method ExistingPaths() returns (paths: seq<nat>)
      ensures forall i :: 0 <= i < |paths| ==> paths[i] in fs.paths
      ensures ContentsOf(fs, paths) == Retained()
    {
      paths := [];
      var i := maxFiles - 1;
      while i >= 1
        invariant forall k :: 0 <= k < |paths| ==> paths[k] in fs.paths
        invariant 0 <= i <= Last() || (i == maxFiles - 1 && Last() == 0)
        invariant ContentsOf(fs, paths) + fs.Kept(if i < 0 then 0 else i) == Retained()
      {
        if i in fs.paths {
          ContentsSnoc(fs, paths, i);
          paths := paths + [i];
        }
        i := i - 1;
      }
      if 0 in fs.paths {
        ContentsSnoc(fs, paths, 0);
        paths := paths + [0];
      }
    }

    /** Accept a line: into the stream, or, around a rotation, into the list of those that wait. */
    method Write(line: Line)
      requires Valid()
      modifies this
      ensures Valid() && initial == old(initial) && accepted == old(accepted) + [line]
      ensures dropped == old(dropped) && droppedFiles == old(droppedFiles) && blank == old(blank)
      ensures old(rotating) ==> rotating && pending == old(pending) + [line]
    {
      hide Stock, Consistent, Files.Kept;
      ChunksAppend(accepted, [line]);
      Associate(initial, ChunksOf(accepted), [ChunkOf(line)]);
      Enqueue(line);
      accepted := accepted + [line];
    }

    method Enqueue(line: Line)
      requires Consistent() && (pending != [] <==> rotating)
      modifies this`ws, this`ending, this`size, this`rotating, this`pending
      ensures Consistent() && (pending != [] <==> rotating)
      ensures Stock() == old(Stock()) + [ChunkOf(line)]
      ensures old(rotating) ==> rotating && pending == old(pending) + [line]
      ensures !old(rotating) ==> if rotating then pending == [line] else pending == []
      ensures !old(rotating) ==> (rotating <==> old(size) > 0 && old(size) + |ChunkOf(line)| > maxBytes)
    {
      if rotating {
        Hold(line);
        return;
      }
      var chunk := ChunkOf(line);
      if size > 0 && size + |chunk| > maxBytes {
        BeginRotate();
        Hold(line);
        return;
      }
      Put(chunk);
    }

    /** Keep a line for when the rotation is over. */
    method Hold(line: Line)
      requires Consistent() && rotating
      modifies this`pending
      ensures Consistent() && pending == old(pending) + [line] && Stock() == old(Stock()) + [ChunkOf(line)]
    {
      ChunksAppend(pending, [line]);
      assert ChunksOf([line]) == [ChunkOf(line)];
      pending := pending + [line];
    }

    /** Give a chunk to the open stream. */
    method Put(chunk: Chunk)
      requires Consistent() && !rotating && pending == [] && chunk != [] && (size == 0 || size + |chunk| <= maxBytes)
      modifies this`ws, this`size
      ensures Consistent() && !rotating && Stock() == old(Stock()) + [chunk]
    {
      ghost var file := fs.data[ws.value.ino];
      SizeAppend(file + ws.value.buffered, [chunk]);
      Associate(file, ws.value.buffered, [chunk]);
      Associate(dropped + Retained(), ws.value.buffered, [chunk]);
      assert Size([chunk]) == |chunk| by { assert [chunk][..0] == []; }
      ws := Some(ws.value.(buffered := ws.value.buffered + [chunk]));
      size := size + |chunk|;
      NothingWaits(dropped + Retained() + Unwritten());
      NothingWaits(old(dropped + Retained() + Unwritten()));
    }

    /** Ask the stream to end. Its file keeps its name until the callback. */
    method BeginRotate()
      requires Consistent() && !rotating
      modifies this`ws, this`ending, this`rotating
      ensures Consistent() && rotating && Stock() == old(Stock())
    {
      ending := ws;
      ws := None;
      rotating := true;
    }

    /** The stream hands the first `n` of its buffered chunks to the file. */
    method StreamWrites(n: nat)
      requires Valid() && n <= |Unwritten()|
      modifies this`fs, this`ws, this`ending
      ensures Valid() && Unwritten() == old(Unwritten())[n..]
      ensures fs.Content(0) + Unwritten() == old(fs.Content(0) + Unwritten())
      ensures forall i :: i > 0 ==> fs.Content(i) == old(fs.Content(i))
    {
      hide Tidy, Flatten;
      var s := if ws.Some? then ws.value else ending.value;
      MoveToFile(fs, Last(), s.buffered, n, dropped, ChunksOf(pending));
      fs := fs.Append(s.ino, s.buffered[..n]);
      if ws.Some? {
        ws := Some(s.(buffered := s.buffered[n..]));
      } else {
        ending := Some(s.(buffered := s.buffered[n..]));
      }
    }

    /** The `end()` callback: the old stream has written everything and is closed. */
    method EndCallback() returns (ghost written: nat)
      requires Valid() && rotating
      modifies this
      ensures Valid() && initial == old(initial) && accepted == old(accepted)
      ensures 1 <= written <= |old(pending)| && pending == old(pending)[written..]
      ensures droppedFiles == old(droppedFiles) + [old(Oldest())] && blank == old(blank)
    {
      StreamWrites(|Unwritten()|);
      NothingUnwritten();
      ending := None;
      written := FinishRotate();
    }

    /** What the next rotation drops: the file under the highest kept path, as it will be. */
    ghost function Oldest(): seq<Chunk>
      reads this`fs, this`ws, this`ending
    {
      if Last() == 0 then fs.Content(0) + Unwritten() else fs.Content(Last())
    }

    lemma TidyDrops(before: Files, files: seq<seq<Chunk>>)
      requires before.Sound() && (blank ==> Tidy(before.paths, started, files, Last(), maxBytes))
      requires if Last() == 0 then fs.paths == before.paths - {0} else Shifted(before, fs, Last())
      requires forall ino :: ino in started ==> ino in before.data && FileOk(before.data[ino])
      ensures blank ==> Tidy(fs.paths, started, files + [before.Content(Last())], Last(), maxBytes)
    {
      hide Tidy, Fits, Shifted, Size;
      if blank {
        TidyShift(before, fs, started, files, Last(), maxBytes);
      }
    }

    /** The oldest file is deleted, and every other one moves up by one; no name is ever taken twice. */
    method ShiftFiles()
      requires fs.Sound() && DropsOk() && forall ino :: ino in started ==> ino in fs.data && FileOk(fs.data[ino])
      modifies this`fs, this`dropped, this`droppedFiles
      ensures fs.Sound() && 0 !in fs.paths && fs.data == old(fs.data)
      ensures DropsOk() && droppedFiles == old(droppedFiles) + [old(fs.Content(Last()))]
      ensures dropped + Retained() == old(dropped + Retained())
    {
      hide Tidy, Fits, Flatten, Size;
      ghost var before, files := fs, droppedFiles;
      FlattenSnoc(droppedFiles, fs.Content(Last()));
      dropped, droppedFiles := dropped + fs.Content(Last()), droppedFiles + [fs.Content(Last())];
      var keepRotated := maxFiles - 1;
      if keepRotated <= 0 {
        if 0 in fs.paths {
          fs := fs.Unlink(0);
        }
        TidyDrops(before, files);
        return;
      }
      ShiftStart(before, keepRotated);
      assert keepRotated !in fs.paths ==> fs.Unlink(keepRotated) == fs;
      if keepRotated in fs.paths {
        fs := fs.Unlink(keepRotated);
      }
      var i := keepRotated - 1;
      while i >= 1
        invariant 0 <= i < keepRotated && ShiftedAbove(before, fs, i, keepRotated)
        invariant dropped == old(dropped) + before.Content(keepRotated)
        invariant droppedFiles == files + [before.Content(keepRotated)]
      {
        ShiftStep(before, fs, i, keepRotated);
        if i in fs.paths {
          fs := fs.Rename(i, i + 1);
        }
        i := i - 1;
      }
      ShiftStep(before, fs, 0, keepRotated);
      if 0 in fs.paths {
        fs := fs.Rename(0, 1);
      }
      TidyDrops(before, files);
      KeptShifted(before, fs, keepRotated, keepRotated);
      Associate(old(dropped), before.Content(keepRotated), before.Kept(keepRotated - 1));
    }

    /** Shift the files and open a fresh current one. */
    method Reopen()
      requires fs.Sound() && (forall ino :: ino in fs.data ==> ino < nextIno) && ws.None? && ending.None? && rotating
      requires forall ino :: ino in started ==> ino in fs.data && FileOk(fs.data[ino])
      requires DropsOk()
      modifies this`fs, this`nextIno, this`size, this`ws, this`started, this`dropped, this`droppedFiles, this`rotating
      ensures Consistent() && !rotating && size == 0 && Stock() == old(Stock())
      ensures DropsOk() && droppedFiles == old(droppedFiles) + [old(fs.Content(Last()))]
    {
      hide ChunksOf, Files.Kept, Size, Tidy, Flatten;
      ShiftFiles();
      OpenStream();
      NothingUnwritten();
      rotating := false;
    }

    method FinishRotate() returns (ghost written: nat)
      requires fs.Sound() && (forall ino :: ino in fs.data ==> ino < nextIno) && ws.None? && ending.None? && rotating
      requires pending != []
      requires forall ino :: ino in started ==> ino in fs.data && FileOk(fs.data[ino])
      requires Stock() == initial + ChunksOf(accepted) && DropsOk()
      modifies this
      ensures Valid() && initial == old(initial) && accepted == old(accepted)
      ensures 1 <= written <= |old(pending)| && pending == old(pending)[written..]
      ensures droppedFiles == old(droppedFiles) + [old(fs.Content(Last()))] && blank == old(blank)
    {
      hide Stock, Consistent, ChunksOf;
      Reopen();
      written := FlushPending();
      NotifyIdle();
    }

    /** The lines that waited are written; from the first that starts another rotation on, they wait again. */
    method FlushPending() returns (ghost written: nat)
      requires Consistent() && !rotating && pending != [] && size == 0
      modifies this`ws, this`ending, this`size, this`rotating, this`pending
      ensures Consistent() && (pending != [] <==> rotating) && Stock() == old(Stock())
      ensures 1 <= written <= |old(pending)| && pending == old(pending)[written..]
    {
      var buffered := pending;
      pending := [];
      NothingWaits(dropped + Retained() + Unwritten());
      written := Replay(buffered);
    }

    /** Accept these lines again, in their order. */
    method Replay(buffered: seq<Line>) returns (ghost written: nat)
      requires Consistent() && !rotating && pending == [] && size == 0 && buffered != []
      modifies this`ws, this`ending, this`size, this`rotating, this`pending
      ensures Consistent() && (pending != [] <==> rotating) && Stock() == old(Stock()) + ChunksOf(buffered)
      ensures 1 <= written <= |buffered| && pending == buffered[written..]
    {
      hide Stock, Consistent, ChunksOf;
      ghost var stock := Stock();
      written := 0;
      assert buffered[0..] == buffered;
      for i := 0 to |buffered|
        invariant Consistent() && (pending != [] <==> rotating)
        invariant written <= i && pending == buffered[written..i]
        invariant if i == 0 then !rotating && size == 0 else written >= 1
        invariant !rotating ==> written == i
        invariant Stock() + ChunksOf(buffered[i..]) == stock + ChunksOf(buffered)
      {
        FlushStep(stock, Stock(), buffered, i);
        Enqueue(buffered[i]);
        SliceGrows(buffered, written, i);
        written := if rotating then written else i + 1;
      }
      assert buffered[written..|buffered|] == buffered[written..];
      FlushEnd(Stock(), buffered);
    }

    /** With no new lines every rotation gets at least one waiting line on its way: n lines, n rotations. */
    method Drain() returns (ghost rotations: nat)
      requires Valid()
      modifies this
      ensures Valid() && !rotating && pending == [] && idleWaiters == 0
      ensures rotations <= |old(pending)| && initial == old(initial) && accepted == old(accepted)
      ensures |droppedFiles| == |old(droppedFiles)| + rotations
    {
      rotations := 0;
      while rotating
        invariant Valid() && initial == old(initial) && accepted == old(accepted)
        invariant rotations + |pending| <= |old(pending)| && |droppedFiles| == |old(droppedFiles)| + rotations
        decreases |pending|
      {
        var _ := EndCallback();
        rotations := rotations + 1;
      }
    }

    /** What is kept is all of the log but its oldest part: nothing is lost or out of order in between. */
    lemma KeptIsSuffix()
      requires Valid()
      ensures dropped <= initial + ChunksOf(accepted)
      ensures Retained() + Unwritten() + ChunksOf(pending) == (initial + ChunksOf(accepted))[|dropped|..]
    {
      Associate(dropped, Retained(), Unwritten());
      Associate(dropped, Retained() + Unwritten(), ChunksOf(pending));
    }

    lemma DroppedFiles()
      requires Valid()
      ensures dropped == Flatten(droppedFiles)
      ensures blank ==>
        forall i :: 0 <= i < |droppedFiles| ==> FileOk(droppedFiles[i]) && (i < Last() ==> droppedFiles[i] == [])
    {
    }

    /** A file that this writer started is within the limit, unless one line alone is not. */
    lemma StartedFilesFit(i: nat)
      requires Valid() && i in fs.paths && fs.paths[i] in started
      ensures Size(fs.Content(i)) <= maxBytes || |fs.Content(i)| <= 1
    {
      var file, rest := fs.Content(i), if i == 0 then Unwritten() else [];
      SizeAppend(file, rest);
      assert Whole(fs.paths[i]) == file + rest;
    }

    /** Whatever comes next. */
    method Happens(event: Event)
      requires Valid()
      modifies this
      ensures Valid() && initial == old(initial) && blank == old(blank)
      ensures accepted == old(accepted) + if event.Accepts? then [event.line] else []
      ensures event.Writes? ==> Unwritten() == old(Unwritten())[if event.n <= |old(Unwritten())| then event.n
                                                                 else |old(Unwritten())|..]
      ensures event.Closed? && old(rotating) ==>
        |pending| < |old(pending)| && droppedFiles == old(droppedFiles) + [old(Oldest())]
      ensures event.Awaits? ==> idleWaiters == old(idleWaiters) + if old(rotating) then 1 else 0
    {
      hide Consistent, DropsOk, Stock, ChunksOf, Flatten;
      match event {
        case Accepts(line) =>
          Write(line);
        case Writes(n) =>
          StreamWrites(if n <= |Unwritten()| then n else |Unwritten()|);
        case Closed =>
          if rotating {
            var _ := EndCallback();
          }
        case Awaits =>
          var _ := WhenIdle();
      }
    }

    method NotifyIdle()
      modifies this`idleWaiters
      ensures idleWaiters == if rotating || pending != [] then old(idleWaiters) else 0
    {
      if rotating || |pending| > 0 {
        return;
      }
      idleWaiters := 0;
    }

    /** Wait until nothing rotates and nothing waits; resolved at once if that is so already. */
    method WhenIdle() returns (resolved: bool)
      requires Valid()
      modifies this`idleWaiters
      ensures Valid() && (resolved <==> !rotating && pending == [])
      ensures idleWaiters == old(idleWaiters) + if resolved then 0 else 1
    {
      if !rotating && |pending| == 0 {
        return true;
      }
      idleWaiters := idleWaiters + 1;
      resolved := false;
    }
  }

  datatype Event = Accepts(line: Line) | Writes(n: nat) | Closed | Awaits

  function Accepted(events: seq<Event>): seq<Line> {
    if events == [] then []
    else Accepted(events[..|events| - 1]) + if events[|events| - 1].Accepts? then [events[|events| - 1].line] else []
  }

  /**
   * Lines, stream progress, end callbacks and waiters in any order: the files, then the stream,
   * then the waiting lines are always exactly a suffix of the whole log. Before it come the files that
   * rotations dropped, whole, one for each; on a fresh start none before as many are kept as may be.
   */
  method Live(files: Files, nextIno: Inode, maxBytes: int, maxFiles: int, events: seq<Event>)
    returns (w: RuntimeLogWriter)
    requires files.Sound() && forall ino :: ino in files.data ==> ino < nextIno
    ensures w.Valid() && w.initial == files.Kept(w.Last()) && w.accepted == Accepted(events)
    ensures w.Retained() + w.Unwritten() + ChunksOf(w.pending)
       == (w.initial + ChunksOf(Accepted(events)))[|Flatten(w.droppedFiles)|..]
    ensures files.paths == map[] ==> forall i :: 0 <= i < |w.droppedFiles| ==>
      w.FileOk(w.droppedFiles[i]) && (i < w.Last() ==> w.droppedFiles[i] == [])
  {
    hide ChunksOf, Files.Kept, RuntimeLogWriter.Valid;
    w := new RuntimeLogWriter(files, nextIno, maxBytes, maxFiles);
    for i := 0 to |events|
      invariant fresh(w) && w.Valid() && w.initial == files.Kept(w.Last()) && w.accepted == Accepted(events[..i])
      invariant w.blank <==> files.paths == map[]
    {
      assert events[..i + 1][..i] == events[..i];
      w.Happens(events[i]);
    }
    assert events[..|events|] == events;
    w.KeptIsSuffix();
    w.DroppedFiles();
  }

  lemma NothingAround(kept: seq<Chunk>)
    ensures [] + kept + [] + ChunksOf([]) == kept
  {
  }

  lemma NothingWaits(stock: seq<Chunk>)
    ensures stock + ChunksOf([]) == stock
  {
  }

  lemma SliceGrows<T>(s: seq<T>, from: nat, i: nat)
    requires from <= i < |s|
    ensures s[from..i] + [s[i]] == s[from..i + 1]
  {
  }

  lemma FlushEnd(stock: seq<Chunk>, lines: seq<Line>)
    ensures stock + ChunksOf(lines[|lines|..]) == stock
  {
    assert lines[|lines|..] == [];
  }

  lemma FlushStep(start: seq<Chunk>, stock: seq<Chunk>, lines: seq<Line>, i: nat)
    requires i < |lines| && stock + ChunksOf(lines[i..]) == start + ChunksOf(lines)
    ensures stock + [ChunkOf(lines[i])] + ChunksOf(lines[i + 1..]) == start + ChunksOf(lines)
  {
    assert lines[i..][1..] == lines[i + 1..];
    Associate(stock, [ChunkOf(lines[i])], ChunksOf(lines[i + 1..]));
  }

  /** Chunks that go from the stream to the current file stay at the same place of the whole log. */
  lemma MoveToFile(fs: Files, last: nat, buffered: seq<Chunk>, n: nat, before: seq<Chunk>, after: seq<Chunk>)
    requires fs.Sound() && 0 in fs.paths && n <= |buffered|
    ensures before + fs.Append(fs.paths[0], buffered[..n]).Kept(last) + buffered[n..] + after
         == before + fs.Kept(last) + buffered + after
    ensures fs.data[fs.paths[0]] + buffered[..n] + buffered[n..] == fs.data[fs.paths[0]] + buffered
  {
    KeptAppend(fs, last, buffered[..n]);
    assert buffered == buffered[..n] + buffered[n..];
    var d := fs.data[fs.paths[0]];
    assert d + buffered[..n] + buffered[n..] == d + buffered;
    var kept := fs.Kept(last);
    assert before + (kept + buffered[..n]) + buffered[n..] == before + kept + buffered;
  }

  /** What the files under these paths hold, in this order. */
  function ContentsOf(fs: Files, paths: seq<nat>): seq<Chunk> {
    if paths == [] then [] else fs.Content(paths[0]) + ContentsOf(fs, paths[1..])
  }

  lemma {:induction false} ContentsSnoc(fs: Files, paths: seq<nat>, i: nat)
    ensures ContentsOf(fs, paths + [i]) == ContentsOf(fs, paths) + fs.Content(i)
  {
    if paths == [] {
      assert paths + [i] == [i];
    } else {
      assert (paths + [i])[1..] == paths[1..] + [i];
      ContentsSnoc(fs, paths[1..], i);
    }
  }
}
