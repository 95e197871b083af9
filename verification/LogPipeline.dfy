/** The reader behind the writer: what an export of the log holds of the lines that were written. */
module LogPipeline {
  import opened Bytes
  import W = LogWriter
  import R = LogReader

  /** A chunk as the writer writes it: it ends with a newline, whatever is inside. */
  predicate Terminated(chunk: W.Chunk) {
    chunk != [] && chunk[|chunk| - 1] == R.LF
  }

  predicate AllTerminated(chunks: seq<W.Chunk>) {
    forall i :: 0 <= i < |chunks| ==> Terminated(chunks[i])
  }

  /** The lines in these chunks; a chunk with a stack inside has several. */
  function LinesOf(chunks: seq<W.Chunk>): seq<R.Line> {
    if chunks == [] then [] else R.Lines(chunks[0]) + LinesOf(chunks[1..])
  }

  /** And how many bytes each of them takes up. */
  function WeightsOf(chunks: seq<W.Chunk>): (w: seq<nat>)
    ensures |w| == |LinesOf(chunks)|
  {
    if chunks == [] then [] else R.Weights(chunks[0]) + WeightsOf(chunks[1..])
  }

  lemma {:induction false} LinesOfConcat(a: seq<W.Chunk>, b: seq<W.Chunk>)
    ensures LinesOf(a + b) == LinesOf(a) + LinesOf(b) && WeightsOf(a + b) == WeightsOf(a) + WeightsOf(b)
  {
    hide R.Lines, R.Weights;
    if a == [] {
      assert a + b == b;
    } else {
      assert (a + b)[1..] == a[1..] + b;
      LinesOfConcat(a[1..], b);
      Associate(R.Lines(a[0]), LinesOf(a[1..]), LinesOf(b));
      Associate(R.Weights(a[0]), WeightsOf(a[1..]), WeightsOf(b));
    }
  }

  // ---- lines without line breaks inside ------------------------------------------------------------

  /** A line without line breaks inside; one newline at its end is accepted too. */
  predicate Plain(line: seq<Byte>) {
    forall i :: 0 <= i < |line| ==> line[i] != R.CR && (line[i] == R.LF ==> i == |line| - 1)
  }

  /** The line without a newline at its end. */
  function Body(line: seq<Byte>): seq<Byte> {
    if line != [] && line[|line| - 1] == R.LF then line[..|line| - 1] else line
  }

  function Bodies(lines: seq<seq<Byte>>): (r: seq<seq<Byte>>)
    ensures |r| == |lines|
  {
    if lines == [] then [] else [Body(lines[0])] + Bodies(lines[1..])
  }

  /** The only line break is the last byte. */
  lemma OnlyBreak(c: W.Chunk, n: nat)
    requires |c| == n + 1 && c[n] == R.LF && forall i :: 0 <= i < n ==> c[i] != R.LF && c[i] != R.CR
    ensures R.Lines(c) == [c[..n]]
  {
    hide R.Lines;
    assert R.LineEnd(c) == n && R.Terminator(c, n) == 1;
    hide R.LineEnd, R.Terminator;
    assert R.AfterFirst(c) == [];
    R.FirstCons(c);
    NoLines();
  }

  lemma PlainIsOneLine(line: W.Line)
    requires Plain(line)
    ensures R.Lines(W.ChunkOf(line)) == [Body(line)]
  {
    hide R.Lines;
    var c := W.ChunkOf(line);
    assert c[..|c| - 1] == Body(line);
    OnlyBreak(c, |c| - 1);
  }

  lemma NoLines()
    ensures R.Lines([]) == []
  {
  }

  /** Each line that was accepted without breaks inside is read as one line. */
  lemma {:induction false} PlainLines(lines: seq<W.Line>)
    requires forall i :: 0 <= i < |lines| ==> Plain(lines[i])
    ensures LinesOf(W.ChunksOf(lines)) == Bodies(lines)
  {
    if lines != [] {
      hide R.Lines, Plain, Body;
      PlainIsOneLine(lines[0]);
      PlainLines(lines[1..]);
      LinesOfConcat([W.ChunkOf(lines[0])], W.ChunksOf(lines[1..]));
      LinesOfOne(W.ChunkOf(lines[0]));
    }
  }

  lemma LinesOfOne(chunk: W.Chunk)
    ensures LinesOf([chunk]) == R.Lines(chunk)
  {
    hide R.Lines;
    assert [chunk][1..] == [];
  }

  // ---- files of terminated chunks --------------------------------------------------------------------

  lemma {:induction false} ChunksAreTerminated(lines: seq<W.Line>)
    ensures AllTerminated(W.ChunksOf(lines))
  {
    if lines != [] {
      ChunksAreTerminated(lines[1..]);
    }
  }

  lemma EndsLikeItsEnd(a: seq<Byte>, b: seq<Byte>)
    requires b == [] ==> R.Ended(a)
    requires R.Ended(b)
    ensures R.Ended(a + b)
  {
    if b != [] {
      assert (a + b)[|a + b| - 1] == b[|b| - 1];
    } else {
      assert a + b == a;
    }
  }

  /** A file of terminated chunks has their lines, one after the other. */
  lemma {:induction false} LinesOfFile(chunks: seq<W.Chunk>)
    requires AllTerminated(chunks)
    ensures R.Lines(Flatten(chunks)) == LinesOf(chunks) && R.Weights(Flatten(chunks)) == WeightsOf(chunks)
    ensures R.Ended(Flatten(chunks))
  {
    if chunks != [] {
      hide R.Lines, R.Weights;
      LinesOfFile(chunks[1..]);
      R.LinesAppend(chunks[0], Flatten(chunks[1..]));
      EndsLikeItsEnd(chunks[0], Flatten(chunks[1..]));
    }
  }

  /** The bytes of the files under these paths. */
  function FilesOf(fs: W.Files, paths: seq<nat>): (files: seq<R.File>)
    ensures |files| == |paths|
  {
    seq(|paths|, i requires 0 <= i < |paths| => Some(Flatten(fs.Content(paths[i]))))
  }

  /** What the reader finds in files of terminated chunks. */
  ghost predicate Holds(files: seq<R.File>, chunks: seq<W.Chunk>) {
    && R.AllLines(files) == LinesOf(chunks) && R.AllWeights(files) == WeightsOf(chunks)
    && R.TotalBytes(files) == |Flatten(chunks)|
    && R.AllEnded(files) && (R.PlainEnds(Flatten(chunks)) ==> R.AllPlainEnds(files))
  }

  lemma {:induction false} LinesOfFiles(fs: W.Files, paths: seq<nat>)
    requires AllTerminated(W.ContentsOf(fs, paths))
    ensures Holds(FilesOf(fs, paths), W.ContentsOf(fs, paths))
  {
    if paths == [] {
      assert FilesOf(fs, paths) == [];
    } else {
      hide Terminated, AllTerminated, LinesOf, WeightsOf, FilesOf, W.ContentsOf, R.Lines, R.Weights, R.AllLines,
        R.AllWeights,
        R.Ended, R.AllEnded, R.PlainEnds, R.AllPlainEnds, R.TotalBytes, Flatten;
      var n := |paths| - 1;
      var before, last := W.ContentsOf(fs, paths[..n]), fs.Content(paths[n]);
      ByLastPath(fs, paths);
      TerminatedParts(before, last);
      LinesOfFiles(fs, paths[..n]);
      LinesOfFile(last);
      LinesOfConcat(before, last);
      FlattenConcat(before, last);
      PlainParts(Flatten(before), Flatten(last));
      R.ByLastFile(FilesOf(fs, paths));
      EndsGrow(FilesOf(fs, paths));
    }
  }

  lemma PlainParts(a: seq<Byte>, b: seq<Byte>)
    ensures R.PlainEnds(a + b) ==> R.PlainEnds(a) && R.PlainEnds(b)
  {
    if R.PlainEnds(a + b) {
      forall i | 0 <= i < |a| - 1 ensures !(a[i] == R.CR && a[i + 1] == R.LF) {
        assert (a + b)[i] == a[i] && (a + b)[i + 1] == a[i + 1];
      }
      forall i | 0 <= i < |b| - 1 ensures !(b[i] == R.CR && b[i + 1] == R.LF) {
        assert (a + b)[|a| + i] == b[i] && (a + b)[|a| + i + 1] == b[i + 1];
      }
    }
  }

  lemma EndsGrow(files: seq<R.File>)
    requires files != [] && R.AllEnded(files[..|files| - 1])
    requires (files[|files| - 1].Some? ==> R.Ended(files[|files| - 1].value))
    ensures R.AllEnded(files)
    ensures R.AllPlainEnds(files[..|files| - 1]) && (files[|files| - 1].Some? ==> R.PlainEnds(files[|files| - 1].value))
            ==> R.AllPlainEnds(files)
  {
    hide R.Ended, R.PlainEnds;
    assert forall i :: 0 <= i < |files| - 1 ==> files[..|files| - 1][i] == files[i];
  }

  lemma ByLastPath(fs: W.Files, paths: seq<nat>)
    requires paths != []
    ensures var n := |paths| - 1;
      && W.ContentsOf(fs, paths) == W.ContentsOf(fs, paths[..n]) + fs.Content(paths[n])
      && FilesOf(fs, paths)[..n] == FilesOf(fs, paths[..n])
      && FilesOf(fs, paths)[n] == Some(Flatten(fs.Content(paths[n])))
  {
    hide Flatten;
    var n := |paths| - 1;
    assert paths[..n] + [paths[n]] == paths;
    W.ContentsSnoc(fs, paths[..n], paths[n]);
  }

  lemma TerminatedParts(a: seq<W.Chunk>, b: seq<W.Chunk>)
    ensures AllTerminated(a + b) <==> AllTerminated(a) && AllTerminated(b)
  {
    hide Terminated;
    assert forall i :: 0 <= i < |a| ==> (a + b)[i] == a[i];
    assert forall i :: 0 <= i < |b| ==> (a + b)[|a| + i] == b[i];
    assert forall i :: |a| <= i < |a + b| ==> (a + b)[i] == b[i - |a|];
  }

  /**
   * Export at any moment, also of a log that an earlier process began: the files hold the whole log
   * but for what rotations dropped at its old end and what the stream and the waiting list still
   * hold at its new one, and the output is what a time range selects of a run of the files' lines
   * that ends with the newest one. It fits the limit, and if that run could be two lines longer,
   * these are not in the files any more. It is the end of what the range selects of all lines unless
   * the run begins in the middle of an entry that is out of range.
   */
  method Export(w: W.RuntimeLogWriter, stampOf: R.Line -> R.Stamp, range: R.Range, maxBytes: nat)
    returns (r: R.Reading, ghost k: nat)
    requires w.Valid() && AllTerminated(w.initial)
    ensures w.dropped + w.Retained() + w.Unwritten() + W.ChunksOf(w.pending) == w.initial + W.ChunksOf(w.accepted)
    ensures k <= |LinesOf(w.Retained())|
    ensures r.Reading? ==> r.out == R.Out(R.Selected(LinesOf(w.Retained())[k..], stampOf, range)) && |r.out| <= maxBytes
    ensures r.Reading? ==> R.GivesOut(r.out, LinesOf(w.Retained())[k..], stampOf, range)
    ensures r.Reading? && range == R.Range(None, None) ==> r.out == R.Out(LinesOf(w.Retained())[k..])
    ensures var lines := LinesOf(w.Retained());
      R.Selected(lines, stampOf, range)
        == R.Selected(lines[..k], stampOf, range) + R.Selected(lines[k..], stampOf, range)
      <==> R.Unstamped(lines[k..], stampOf) == 0 || range.Holds(R.Governing(lines[..k], stampOf))
    ensures r.Reading? && k >= 1 ==> maxBytes <= R.SumN(WeightsOf(w.Retained())[k - 1..])
    ensures r.Reading? && k >= 2 ==> maxBytes < R.SumN(WeightsOf(w.Retained())[k - 2..])
    ensures r.Reading? && k >= 2 && R.PlainEnds(Flatten(w.Retained())) ==>
      maxBytes < |R.Out(LinesOf(w.Retained())[k - 2..])|
    ensures r.Reading? ==> (r.truncated <==> |Flatten(w.Retained())| > maxBytes)
    ensures r.NoLog? <==> maxBytes == 0 || w.Retained() == []
  {
    hide R.IsOutput, R.GivesOut, R.GivesOutFitting, R.Window, R.Plan, R.AllLines, R.AllWeights, R.Out, R.SumN,
      R.AllEnded, R.PlainEnds, R.AllPlainEnds, R.TotalBytes, R.Selected, R.Governing, R.Unstamped, W.ChunksOf,
      LinesOf, WeightsOf, FilesOf, Flatten;
    var paths := w.ExistingPaths();
    var files := FilesOf(w.fs, paths);
    r := R.Read(files, stampOf, range, maxBytes);
    k := 0;
    WhatIsRead(w, paths);
    NoBytes(w.Retained());
    if r.Reading? {
      k := R.NewestLines(files, stampOf, range, maxBytes, r.out);
    }
    R.SelectionOfWindow(LinesOf(w.Retained()), k, stampOf, range);
  }

  lemma {:induction false} NoBytes(chunks: seq<W.Chunk>)
    requires AllTerminated(chunks)
    ensures |Flatten(chunks)| == 0 <==> chunks == []
  {
  }

  /** All that the files hold is the log behind what was dropped. */
  lemma WhatIsRead(w: W.RuntimeLogWriter, paths: seq<nat>)
    requires w.Valid() && AllTerminated(w.initial) && W.ContentsOf(w.fs, paths) == w.Retained()
    ensures Holds(FilesOf(w.fs, paths), w.Retained()) && AllTerminated(w.Retained())
    ensures w.dropped + w.Retained() + w.Unwritten() + W.ChunksOf(w.pending) == w.initial + W.ChunksOf(w.accepted)
  {
    hide W.Files.Kept, W.ChunksOf, Holds, AllTerminated;
    ChunksAreTerminated(w.accepted);
    TerminatedParts(w.initial, W.ChunksOf(w.accepted));
    TerminatedParts(w.dropped + w.Retained() + w.Unwritten(), W.ChunksOf(w.pending));
    TerminatedParts(w.dropped + w.Retained(), w.Unwritten());
    TerminatedParts(w.dropped, w.Retained());
    LinesOfFiles(w.fs, paths);
  }
}
