/**
 * The log reader: pick the newest bytes that the budget allows, file by file, and give out their
 * whole lines, filtered by time if asked to.
 */
module LogReader {
  import opened Bytes

  type Line = seq<Byte>

  const LF: Byte := 10
  const CR: Byte := 13

  /** The time stamp at the head of a line: none, one that parses, or one that looks right but does not. */
  datatype Stamp = NoStamp | At(ms: int) | Unparsable

  // ---- lines -----------------------------------------------------------------------------------

  /** Where the first line of `b` ends. */
  function LineEnd(b: seq<Byte>): (n: nat)
    ensures n <= |b| && (n < |b| ==> b[n] == 10 || b[n] == 13)
    ensures forall i :: 0 <= i < n ==> b[i] != 10 && b[i] != 13
  {
    if b == [] || b[0] == LF || b[0] == CR then 0 else 1 + LineEnd(b[1..])
  }

  /** The length of the line terminator at `n`: a carriage return takes a newline after it along. */
  function Terminator(b: seq<Byte>, n: nat): (t: nat)
    requires n < |b|
    ensures 1 <= t <= 2 && n + t <= |b|
  {
    if b[n] == CR && n + 1 < |b| && b[n + 1] == LF then 2 else 1
  }

  /** The lines of a file, without their terminators; an unterminated rest is a line too. */
  function Lines(b: seq<Byte>): seq<Line> {
    if b == [] then []
    else
      var n := LineEnd(b);
      if n == |b| then [b] else [b[..n]] + Lines(b[n + Terminator(b, n)..])
  }

  /** How many bytes each of these lines takes up in the file, its terminator included. */
  function Weights(b: seq<Byte>): (w: seq<nat>)
    ensures |w| == |Lines(b)|
  {
    if b == [] then []
    else
      var n := LineEnd(b);
      if n == |b| then [n] else var t := Terminator(b, n); [n + t] + Weights(b[n + t..])
  }

  function SumN(s: seq<nat>): nat {
    if s == [] then 0 else s[0] + SumN(s[1..])
  }

  lemma {:induction false} SumNConcat(a: seq<nat>, b: seq<nat>)
    ensures SumN(a + b) == SumN(a) + SumN(b)
  {
    if a == [] {
      assert a + b == b;
    } else {
      assert (a + b)[1..] == a[1..] + b;
      SumNConcat(a[1..], b);
    }
  }

  /** The lines of a file take up all of it. */
  lemma {:induction false} WeightsAdd(b: seq<Byte>)
    ensures SumN(Weights(b)) == |b|
    decreases |b|
  {
    if b != [] && LineEnd(b) < |b| {
      FirstWeight(b);
      WeightsAdd(AfterFirst(b));
      SumNFirst(LineEnd(b) + Terminator(b, LineEnd(b)), Weights(AfterFirst(b)));
    } else if b != [] {
      SumNFirst(|b|, []);
      assert [|b|] == [|b|] + [];
    }
  }

  lemma SumNFirst(x: nat, rest: seq<nat>)
    ensures SumN([x] + rest) == x + SumN(rest)
  {
    assert ([x] + rest)[1..] == rest;
  }

  lemma FirstWeight(b: seq<Byte>)
    requires LineEnd(b) < |b|
    ensures Weights(b) == [LineEnd(b) + Terminator(b, LineEnd(b))] + Weights(AfterFirst(b))
  {
    hide Lines, LineEnd, Terminator;
  }

  /** What is given out for lines. */
  function Out(lines: seq<Line>): seq<Byte> {
    if lines == [] then [] else Out(lines[..|lines| - 1]) + (lines[|lines| - 1] + [10])
  }

  lemma {:induction false} OutConcat(a: seq<Line>, b: seq<Line>)
    ensures Out(a + b) == Out(a) + Out(b)
  {
    if b == [] {
      assert a + b == a;
    } else {
      assert (a + b)[..|a + b| - 1] == a + b[..|b| - 1];
      OutConcat(a, b[..|b| - 1]);
    }
  }

  function Drop<T>(s: seq<T>, k: nat): seq<T> {
    if k <= |s| then s[k..] else []
  }

  lemma SliceOfSlice<T>(s: seq<T>, i: nat, j: nat)
    requires i + j <= |s|
    ensures s[i..][j..] == s[i + j..]
  {
  }

  lemma {:induction false} LineEndOfRest(b: seq<Byte>, start: nat)
    requires start <= LineEnd(b)
    ensures LineEnd(b[start..]) == LineEnd(b) - start
  {
    if start == 0 {
      assert b[start..] == b;
    } else {
      LineEndOfRest(b[1..], start - 1);
      SliceOfSlice(b, 1, start - 1);
    }
  }

  /** The file behind its first line. */
  function AfterFirst(b: seq<Byte>): seq<Byte>
    requires LineEnd(b) < |b|
  {
    b[LineEnd(b) + Terminator(b, LineEnd(b))..]
  }

  lemma FirstLine(b: seq<Byte>)
    ensures LineEnd(b) < |b| ==> |Lines(b)| == 1 + |Lines(AfterFirst(b))| && Drop(Lines(b), 1) == Lines(AfterFirst(b))
    ensures LineEnd(b) < |b| ==> Lines(b) == [b[..LineEnd(b)]] + Lines(AfterFirst(b))
    ensures LineEnd(b) == |b| ==> |Lines(b)| <= 1 && Drop(Lines(b), 1) == []
  {
  }

  lemma TerminatorOfRest(b: seq<Byte>, start: nat)
    requires start <= LineEnd(b) < |b|
    ensures LineEnd(b[start..]) < |b[start..]| && AfterFirst(b[start..]) == AfterFirst(b)
  {
    LineEndOfRest(b, start);
    SliceOfSlice(b, start, LineEnd(b) - start + Terminator(b, LineEnd(b)));
  }

  lemma DropTwice<T>(s: seq<T>, k: nat)
    ensures k < |s| ==> Drop(s, 1)[k..] == s[k + 1..]
    ensures |s| > 0 ==> Drop(Drop(s, 1), 1) == s[if |s| == 1 then 1 else 2..]
  {
  }

  lemma OneLine(b: seq<Byte>)
    requires b != [] && LineEnd(b) == |b|
    ensures |Lines(b)| == 1 && Weights(b) == [|b|]
  {
  }

  /** The weights from the `k`th line on, seen from the file behind its first line. */
  lemma WeightsFrom(b: seq<Byte>, k: nat)
    requires LineEnd(b) < |b| && 1 <= k <= |Lines(b)|
    ensures |Lines(b)| == 1 + |Lines(AfterFirst(b))|
    ensures SumN(Weights(b)[k..]) == SumN(Weights(AfterFirst(b))[k - 1..])
    ensures k == 1 ==> SumN(Weights(b)[1..]) == |AfterFirst(b)|
  {
    hide Lines, LineEnd, SumN;
    FirstLine(b);
    FirstWeight(b);
    WeightsAdd(AfterFirst(b));
    assert Weights(b)[k..] == Weights(AfterFirst(b))[k - 1..];
    assert Weights(AfterFirst(b))[0..] == Weights(AfterFirst(b));
  }

  lemma SumNTail(s: seq<nat>, k: nat)
    requires k < |s|
    ensures SumN(s[k..]) == s[k] + SumN(s[k + 1..])
  {
    assert s[k..] == [s[k]] + s[k + 1..];
    SumNFirst(s[k], s[k + 1..]);
  }

  /** Dropping the first line from `start` on leaves the lines from the `k`th on, and that is the best that can be. */
  ghost predicate DropsTo(b: seq<Byte>, start: nat, k: nat) {
    && start <= |b| && 1 <= k <= |Lines(b)| && Drop(Lines(b[start..]), 1) == Lines(b)[k..]
    && SumN(Weights(b)[k..]) <= |b| - start <= SumN(Weights(b)[k - 1..])
  }

  lemma DropOnly(b: seq<Byte>, start: nat)
    requires 0 < start <= |b| == LineEnd(b)
    ensures DropsTo(b, start, 1)
  {
    hide Lines, LineEnd;
    OneLine(b);
    FirstLine(b[start..]);
    LineEndOfRest(b, start);
    SumNTail(Weights(b), 0);
    assert Weights(b)[1..] == [];
  }

  /** The cut is in the first line or its terminator. */
  lemma DropInFirst(b: seq<Byte>, start: nat)
    requires 0 < start <= |b| && LineEnd(b) < |b| && start < LineEnd(b) + Terminator(b, LineEnd(b))
    ensures DropsTo(b, start, 1)
  {
    hide Lines, LineEnd, Weights, SumN;
    FirstLine(b);
    WeightsAdd(b);
    WeightsFrom(b, 1);
    assert Weights(b)[0..] == Weights(b);
    if start <= LineEnd(b) {
      TerminatorOfRest(b, start);
      FirstLine(b[start..]);
    } else {
      SecondHalf(b);
    }
  }

  /** The cut is right behind the first line: the second one is dropped without need. */
  lemma DropAtEnd(b: seq<Byte>)
    requires LineEnd(b) < |b|
    ensures DropsTo(b, LineEnd(b) + Terminator(b, LineEnd(b)), if |Lines(b)| == 1 then 1 else 2)
  {
    hide Lines, LineEnd, Weights, SumN;
    FirstLine(b);
    WeightsFrom(b, 1);
    DropTwice(Lines(b), 0);
    if |Lines(b)| == 1 {
      EmptyRest(AfterFirst(b));
      SumNTail(Weights(b), 0);
    } else {
      SumNTail(Weights(b), 1);
    }
  }

  lemma ConsSlice<T>(x: T, rest: seq<T>, j: nat)
    requires j <= |rest|
    ensures ([x] + rest)[j + 1..] == rest[j..]
  {
  }

  /** The cut is later, and dropping leaves the same lines as it does in the file behind the first line. */
  lemma LinesLater(b: seq<Byte>, start: nat, j: nat)
    requires LineEnd(b) < |b| && |b| - |AfterFirst(b)| <= start <= |b| && j <= |Lines(AfterFirst(b))|
    requires Drop(Lines(AfterFirst(b)[start - (|b| - |AfterFirst(b)|)..]), 1) == Lines(AfterFirst(b))[j..]
    ensures Drop(Lines(b[start..]), 1) == Lines(b)[j + 1..]
  {
    hide Lines, LineEnd, Drop;
    FirstLine(b);
    var past := LineEnd(b) + Terminator(b, LineEnd(b));
    SliceOfSlice(b, past, start - past);
    ConsSlice(b[..LineEnd(b)], Lines(AfterFirst(b)), j);
  }

  lemma DropLater(b: seq<Byte>, start: nat, j: nat)
    requires LineEnd(b) < |b| && |b| - |AfterFirst(b)| < start
    requires DropsTo(AfterFirst(b), start - (|b| - |AfterFirst(b)|), j)
    ensures DropsTo(b, start, j + 1)
  {
    hide Lines, LineEnd, Weights, SumN, Drop, AfterFirst;
    FirstLine(b);
    LinesLater(b, start, j);
    WeightsFrom(b, j + 1);
    WeightsFrom(b, j);
  }

  /**
   * Starting anywhere behind the first byte and dropping the first line found there leaves whole
   * lines of the file, from some point to its end; and at most one line more is lost than must be.
   */
  lemma {:induction false} DropFirst(b: seq<Byte>, start: nat) returns (k: nat)
    requires 0 < start <= |b|
    ensures 1 <= k <= |Lines(b)| && Drop(Lines(b[start..]), 1) == Lines(b)[k..]
    ensures SumN(Weights(b)[k..]) <= |b| - start <= SumN(Weights(b)[k - 1..])
    decreases |b|
  {
    hide Lines, LineEnd, Weights, SumN;
    if LineEnd(b) == |b| {
      DropOnly(b, start);
      k := 1;
    } else {
      var past := LineEnd(b) + Terminator(b, LineEnd(b));
      if start < past {
        DropInFirst(b, start);
        k := 1;
      } else if start == past {
        DropAtEnd(b);
        k := if |Lines(b)| == 1 then 1 else 2;
      } else {
        var j := DropFirst(AfterFirst(b), start - past);
        DropLater(b, start, j);
        k := j + 1;
      }
    }
  }

  lemma NoWeight()
    ensures SumN([]) == 0
  {
  }

  lemma EmptyRest(b: seq<Byte>)
    requires Lines(b) == []
    ensures b == []
  {
  }

  lemma StartsWithNewline(b: seq<Byte>)
    requires b != [] && b[0] == LF
    ensures LineEnd(b) == 0 && AfterFirst(b) == b[1..]
  {
  }

  /** Between a carriage return and its newline there is an empty line to drop. */
  lemma SecondHalf(b: seq<Byte>)
    requires LineEnd(b) < |b| && Terminator(b, LineEnd(b)) == 2
    ensures Drop(Lines(b[LineEnd(b) + 1..]), 1) == Lines(AfterFirst(b))
  {
    hide Lines;
    var n := LineEnd(b);
    var rest := b[n + 1..];
    assert rest[0] == LF;
    StartsWithNewline(rest);
    SliceOfSlice(b, n + 1, 1);
    FirstLine(rest);
  }

  lemma {:induction false} LineEndOfStart(a: seq<Byte>, b: seq<Byte>)
    requires LineEnd(a) < |a|
    ensures LineEnd(a + b) == LineEnd(a)
  {
    if LineEnd(a) > 0 {
      assert (a + b)[1..] == a[1..] + b;
      LineEndOfStart(a[1..], b);
    }
  }

  lemma {:induction false} EndsBeforeNewline(a: seq<Byte>)
    requires a != [] && a[|a| - 1] == LF
    ensures LineEnd(a) < |a| && (AfterFirst(a) == [] || AfterFirst(a)[|AfterFirst(a)| - 1] == LF)
  {
    var last := |a| - 1;
    assert a[last] == LF;
  }

  lemma ConcatSlices<T>(a: seq<T>, b: seq<T>, p: nat)
    requires p <= |a|
    ensures (a + b)[..p] == a[..p] && (a + b)[p..] == a[p..] + b
  {
  }

  lemma TerminatorOfStart(a: seq<Byte>, b: seq<Byte>, n: nat)
    requires n < |a| && a[|a| - 1] == LF
    ensures Terminator(a + b, n) == Terminator(a, n)
  {
  }

  lemma FirstOfStart(a: seq<Byte>, b: seq<Byte>)
    requires a != [] && a[|a| - 1] == LF
    ensures LineEnd(a) < |a| && LineEnd(a + b) == LineEnd(a)
    ensures Terminator(a + b, LineEnd(a)) == Terminator(a, LineEnd(a))
  {
    hide LineEnd, Terminator;
    EndsBeforeNewline(a);
    LineEndOfStart(a, b);
    TerminatorOfStart(a, b, LineEnd(a));
  }

  lemma LinesFrom(b: seq<Byte>)
    requires LineEnd(b) < |b|
    ensures var past := LineEnd(b) + Terminator(b, LineEnd(b));
      && Lines(b) == [b[..LineEnd(b)]] + Lines(b[past..])
      && Weights(b) == [past] + Weights(b[past..])
  {
    hide Lines, LineEnd, Weights, Terminator;
    FirstCons(b);
    FirstWeight(b);
  }

  lemma FirstCons(b: seq<Byte>)
    requires LineEnd(b) < |b|
    ensures Lines(b) == [b[..LineEnd(b)]] + Lines(AfterFirst(b))
  {
  }

  lemma StepOfLines(a: seq<Byte>, b: seq<Byte>, n: nat, past: nat)
    requires n == LineEnd(a) < |a| && past == n + Terminator(a, n) <= |a|
    requires LineEnd(a + b) == n && Terminator(a + b, n) == Terminator(a, n)
    requires Lines(a[past..] + b) == Lines(a[past..]) + Lines(b)
    ensures Lines(a + b) == Lines(a) + Lines(b)
  {
    hide Lines, LineEnd, Weights, Terminator;
    ConcatSlices(a, b, n);
    ConcatSlices(a, b, past);
    LinesFrom(a + b);
    LinesFrom(a);
    Associate([a[..n]], Lines(a[past..]), Lines(b));
  }

  lemma StepOfWeights(a: seq<Byte>, b: seq<Byte>, n: nat, past: nat)
    requires n == LineEnd(a) < |a| && past == n + Terminator(a, n) <= |a|
    requires LineEnd(a + b) == n && Terminator(a + b, n) == Terminator(a, n)
    requires Weights(a[past..] + b) == Weights(a[past..]) + Weights(b)
    ensures Weights(a + b) == Weights(a) + Weights(b)
  {
    hide Lines, LineEnd, Weights, Terminator;
    ConcatSlices(a, b, past);
    LinesFrom(a + b);
    LinesFrom(a);
    Associate([past], Weights(a[past..]), Weights(b));
  }

  /** Behind a newline the lines start afresh. */
  lemma {:induction false} LinesAppend(a: seq<Byte>, b: seq<Byte>)
    requires a == [] || a[|a| - 1] == LF
    ensures Lines(a + b) == Lines(a) + Lines(b) && Weights(a + b) == Weights(a) + Weights(b)
    decreases |a|
  {
    if a == [] {
      assert a + b == b;
    } else {
      hide Lines, LineEnd, Weights, Terminator;
      FirstOfStart(a, b);
      var past := LineEnd(a) + Terminator(a, LineEnd(a));
      EndsBeforeNewline(a);
      LinesAppend(a[past..], b);
      StepOfLines(a, b, LineEnd(a), past);
      StepOfWeights(a, b, LineEnd(a), past);
    }
  }

  // ---- the window ------------------------------------------------------------------------------

  /** A file that exists, or nothing if it vanished since it was listed. */
  type File = Option<seq<Byte>>

  datatype Entry = Entry(file: nat, start: nat)

  function SizeOf(f: File): nat {
    if f.Some? then |f.value| else 0
  }

  /** From the newest file back until the budget is used up; the last one taken may be cut. */
  function Plan(files: seq<File>, budget: int): (plan: seq<Entry>)
    ensures forall e :: e in plan ==> e.file < |files| && files[e.file].Some? && e.start < SizeOf(files[e.file])
  {
    if files == [] || budget <= 0 then []
    else
      var i := |files| - 1;
      var size := SizeOf(files[i]);
      if size == 0 then Plan(files[..i], budget)
      else if size <= budget then Plan(files[..i], budget - size) + [Entry(i, 0)]
      else [Entry(i, size - budget)]
  }

  lemma PlanStep(files: seq<File>, i: nat, budget: int, plan: seq<Entry>)
    requires i < |files| && budget > 0
    ensures var size := SizeOf(files[i]);
      Plan(files[..i + 1], budget) + plan ==
        if size == 0 then Plan(files[..i], budget) + plan
        else if size <= budget then Plan(files[..i], budget - size) + ([Entry(i, 0)] + plan)
        else Plan(files[..i], 0) + ([Entry(i, size - budget)] + plan)
  {
    assert files[..i + 1][..i] == files[..i];
  }

  method PlanWithinBudget(files: seq<File>, maxBytes: int) returns (plan: seq<Entry>)
    ensures plan == Plan(files, maxBytes)
  {
    plan := [];
    var budget := maxBytes;
    var i := |files| - 1;
    assert files[..i + 1] == files;
    while i >= 0 && budget > 0
      invariant -1 <= i < |files|
      invariant Plan(files[..i + 1], budget) + plan == Plan(files, maxBytes)
    {
      PlanStep(files, i, budget, plan);
      var size := 0;
      if files[i].Some? {
        size := |files[i].value|;
        if size > 0 && size <= budget {
          plan := [Entry(i, 0)] + plan;
          budget := budget - size;
        } else if size > 0 {
          plan := [Entry(i, size - budget)] + plan;
          budget := 0;
        }
      }
      i := i - 1;
    }
    assert i == -1 ==> files[..i + 1] == [];
  }

  /** The whole lines that an entry of the plan reads. */
  function EntryLines(files: seq<File>, e: Entry): seq<Line>
    requires e.file < |files| && files[e.file].Some? && e.start <= SizeOf(files[e.file])
  {
    Drop(Lines(files[e.file].value[e.start..]), if e.start > 0 then 1 else 0)
  }

  predicate Readable(files: seq<File>, plan: seq<Entry>) {
    forall e :: e in plan ==> e.file < |files| && files[e.file].Some? && e.start <= SizeOf(files[e.file])
  }

  function Window(files: seq<File>, plan: seq<Entry>): seq<Line>
    requires Readable(files, plan)
  {
    if plan == [] then [] else Window(files, plan[..|plan| - 1]) + EntryLines(files, plan[|plan| - 1])
  }

  /** All lines of all files, oldest first. */
  function AllLines(files: seq<File>): seq<Line> {
    if files == [] then []
    else AllLines(files[..|files| - 1]) + if files[|files| - 1].Some? then Lines(files[|files| - 1].value) else []
  }

  /** And how many bytes each of them takes up. */
  function AllWeights(files: seq<File>): (w: seq<nat>)
    ensures |w| == |AllLines(files)|
  {
    if files == [] then []
    else AllWeights(files[..|files| - 1]) + if files[|files| - 1].Some? then Weights(files[|files| - 1].value) else []
  }

  /** Fewer files see the same plan. */
  lemma {:induction false} WindowOfPrefix(files: seq<File>, n: nat, plan: seq<Entry>)
    requires n <= |files| && Readable(files[..n], plan)
    ensures Readable(files, plan) && Window(files, plan) == Window(files[..n], plan)
  {
    if plan != [] {
      WindowOfPrefix(files, n, plan[..|plan| - 1]);
    }
  }

  lemma EmptyFile(f: File)
    requires SizeOf(f) == 0
    ensures f.Some? ==> Lines(f.value) == [] && Weights(f.value) == []
  {
  }

  /** All that is said of a list of files, by its last one. */
  lemma ByLastFile(files: seq<File>)
    requires files != []
    ensures var init, last := files[..|files| - 1], files[|files| - 1];
      && AllLines(files) == (if last.Some? then AllLines(init) + Lines(last.value) else AllLines(init))
      && AllWeights(files) == (if last.Some? then AllWeights(init) + Weights(last.value) else AllWeights(init))
      && TotalBytes(files) == TotalBytes(init) + SizeOf(last)
      && (AllEnded(files) ==> AllEnded(init) && (last.Some? ==> Ended(last.value)))
      && (AllPlainEnds(files) ==> AllPlainEnds(init) && (last.Some? ==> PlainEnds(last.value)))
  {
    hide Lines, Weights, Ended, PlainEnds;
  }

  lemma NothingPlanned(files: seq<File>, budget: int)
    requires files == [] || budget <= 0
    ensures Window(files, Plan(files, budget)) == [] && (files == [] ==> AllLines(files) == [])
  {
  }

  lemma CutFile(files: seq<File>, budget: int)
    requires files != [] && 0 < budget < SizeOf(files[|files| - 1])
    ensures var b := files[|files| - 1].value;
      Window(files, Plan(files, budget)) == Drop(Lines(b[|b| - budget..]), 1)
  {
    hide Lines, LineEnd;
    assert Plan(files, budget)[..0] == [];
  }

  lemma WholeFile(files: seq<File>, budget: int)
    requires files != [] && 0 < SizeOf(files[|files| - 1]) <= budget
    ensures var i := |files| - 1; var rest := Plan(files[..i], budget - SizeOf(files[i]));
      Readable(files[..i], rest)
      && Window(files, Plan(files, budget)) == Window(files[..i], rest) + Lines(files[i].value)
  {
    hide Lines, LineEnd;
    var i := |files| - 1;
    var rest := Plan(files[..i], budget - SizeOf(files[i]));
    WindowOfPrefix(files, i, rest);
    assert (rest + [Entry(i, 0)])[..|rest|] == rest;
    assert files[i].value[0..] == files[i].value;
  }

  lemma Suffix<T>(a: seq<T>, k: nat, b: seq<T>)
    requires k <= |a|
    ensures a[k..] + b == (a + b)[k..]
  {
  }

  lemma SuffixOfLast<T>(a: seq<T>, b: seq<T>, j: nat)
    requires j <= |b|
    ensures (a + b)[|a| + j..] == b[j..]
  {
  }

  lemma SumOfSuffix(a: seq<nat>, k: nat, b: seq<nat>)
    requires k <= |a|
    ensures SumN((a + b)[k..]) == SumN(a[k..]) + SumN(b)
  {
    Suffix(a, k, b);
    SumNConcat(a[k..], b);
  }

  /**
   * The lines in the window are all the lines from some point on, across the files. They fit the
   * budget, and with one more line they would at least fill it.
   */
  lemma {:induction false} WindowIsTight(files: seq<File>, budget: int) returns (k: nat)
    ensures k <= |AllLines(files)| && Window(files, Plan(files, budget)) == AllLines(files)[k..]
    ensures budget >= 0 ==> SumN(AllWeights(files)[k..]) <= budget
    ensures k >= 1 ==> budget <= SumN(AllWeights(files)[k - 1..])
    decreases |files|
  {
    hide Lines, Weights, Plan, Window, AllLines, AllWeights, SumN, AllEnded, AllPlainEnds;
    if files == [] || budget <= 0 {
      NothingPlanned(files, budget);
      k := |AllLines(files)|;
      NothingFrom(AllWeights(files));
    } else {
      var i := |files| - 1;
      ByLastFile(files);
      var size, before, weights, last := SizeOf(files[i]), AllLines(files[..i]), AllWeights(files[..i]), files[i];
      if size == 0 {
        k := WindowIsTight(files[..i], budget);
        EmptyFileIsSkipped(files, budget);
      } else if size <= budget {
        k := WindowIsTight(files[..i], budget - size);
        WholeFile(files, budget);
        Suffix(before, k, Lines(last.value));
        WeightsAdd(last.value);
        SumOfSuffix(weights, k, Weights(last.value));
        if k >= 1 {
          SumOfSuffix(weights, k - 1, Weights(last.value));
        }
      } else {
        var j := DropFirst(last.value, size - budget);
        k := |before| + j;
        CutFile(files, budget);
        SuffixOfLast(before, Lines(last.value), j);
        SuffixOfLast(weights, Weights(last.value), j);
        SuffixOfLast(weights, Weights(last.value), j - 1);
      }
    }
  }

  lemma NothingFrom(w: seq<nat>)
    ensures SumN(w[|w|..]) == 0 && (|w| >= 1 ==> 0 <= SumN(w[|w| - 1..]))
  {
    assert w[|w|..] == [];
  }

  // ---- what is given out ------------------------------------------------------------------------

  /** The stamp that governs the last of these lines: that of the nearest stamped line at or before it. */
  function Governing(lines: seq<Line>, stampOf: Line -> Stamp): Stamp {
    if lines == [] then NoStamp
    else if stampOf(lines[|lines| - 1]) != NoStamp then stampOf(lines[|lines| - 1])
    else Governing(lines[..|lines| - 1], stampOf)
  }

  /** A time range, either end of which may be open. */
  datatype Range = Range(from: Option<int>, to: Option<int>) {
    predicate Holds(stamp: Stamp) {
      stamp.At? ==> (from.Some? ==> from.value <= stamp.ms) && (to.Some? ==> stamp.ms <= to.value)
    }
  }

  /** The lines whose governing stamp is in range, or that have none that parses. */
  function Selected(lines: seq<Line>, stampOf: Line -> Stamp, range: Range): seq<Line> {
    if lines == [] then []
    else
      Selected(lines[..|lines| - 1], stampOf, range)
      + if range.Holds(Governing(lines, stampOf)) then [lines[|lines| - 1]] else []
  }

  /** Is `n` the number of lines, counted from the first, that fit into `maxBytes`? */
  predicate IsFitting(lines: seq<Line>, maxBytes: int, n: nat) {
    n <= |lines| && |Out(lines[..n])| <= maxBytes && (n < |lines| ==> |Out(lines[..n + 1])| > maxBytes)
  }

  /** Is `out` what a reader gives out for a window of lines: as many selected lines as fit, from the oldest? */
  ghost predicate IsOutput(out: seq<Byte>, window: seq<Line>, stampOf: Line -> Stamp, range: Range, maxBytes: int) {
    var selected := Selected(window, stampOf, range);
    exists n: nat :: IsFitting(selected, maxBytes, n) && out == Out(selected[..n])
  }

  lemma {:induction false} SelectedGrows(a: seq<Line>, b: seq<Line>, stampOf: Line -> Stamp, range: Range)
    ensures Selected(a, stampOf, range) <= Selected(a + b, stampOf, range)
  {
    if b == [] {
      assert a + b == a;
    } else {
      assert (a + b)[..|a + b| - 1] == a + b[..|b| - 1];
      SelectedGrows(a, b[..|b| - 1], stampOf, range);
    }
  }

  lemma NextLine(seen: seq<Line>, line: Line, stampOf: Line -> Stamp, range: Range)
    ensures var governing := if stampOf(line) != NoStamp then stampOf(line) else Governing(seen, stampOf);
      && Governing(seen + [line], stampOf) == governing
      && Selected(seen + [line], stampOf, range)
           == if range.Holds(governing) then Selected(seen, stampOf, range) + [line] else Selected(seen, stampOf, range)
  {
    assert (seen + [line])[..|seen|] == seen;
  }

  lemma OutNext(lines: seq<Line>, line: Line)
    ensures Out(lines + [line]) == Out(lines) + (line + [LF])
  {
    assert (lines + [line])[..|lines|] == lines;
  }

  /** No room for the next selected line: whatever else is in the window, this is the output. */
  lemma Overflow(seen: seq<Line>, line: Line, more: seq<Line>, stampOf: Line -> Stamp,
                 range: Range, out: seq<Byte>, maxBytes: int)
    requires out == Out(Selected(seen, stampOf, range)) && |out| <= maxBytes < |out + (line + [LF])|
    requires Selected(seen + [line], stampOf, range) == Selected(seen, stampOf, range) + [line]
    ensures IsOutput(out, seen + [line] + more, stampOf, range, maxBytes)
  {
    var before := Selected(seen, stampOf, range);
    var all := Selected(seen + [line] + more, stampOf, range);
    SelectedGrows(seen + [line], more, stampOf, range);
    assert all[..|before| + 1] == before + [line] && all[..|before|] == before;
    OutNext(before, line);
    assert IsFitting(all, maxBytes, |before|);
  }

  /** Give out the lines of one file that are in range, until one does not fit any more. */
  method EmitLines(lines: seq<Line>, stampOf: Line -> Stamp, range: Range, maxBytes: int,
                   given: seq<Byte>, latest: Stamp,
                   ghost seen: seq<Line>)
    returns (out: seq<Byte>, lastMs: Stamp, full: bool)
    requires given == Out(Selected(seen, stampOf, range)) && |given| <= maxBytes && latest == Governing(seen, stampOf)
    ensures !full ==> out == Out(Selected(seen + lines, stampOf, range)) && |out| <= maxBytes
    ensures !full ==> lastMs == Governing(seen + lines, stampOf)
    ensures full ==> forall more :: IsOutput(out, seen + lines + more, stampOf, range, maxBytes)
  {
    hide Selected, Governing, Out, IsOutput;
    out, lastMs, full := given, latest, false;
    assert seen + lines[..0] == seen;
    for i := 0 to |lines|
      invariant out == Out(Selected(seen + lines[..i], stampOf, range)) && |out| <= maxBytes
      invariant lastMs == Governing(seen + lines[..i], stampOf) && !full
    {
      var line := lines[i];
      NextLine(seen + lines[..i], line, stampOf, range);
      assert seen + lines[..i + 1] == seen + lines[..i] + [line];
      if stampOf(line) != NoStamp {
        lastMs := stampOf(line);
      }
      if lastMs.At? {
        if range.from.Some? && lastMs.ms < range.from.value {
          continue;
        }
        if range.to.Some? && lastMs.ms > range.to.value {
          continue;
        }
      }
      OutNext(Selected(seen + lines[..i], stampOf, range), line);
      var chunk := line + [LF];
      if |out| + |chunk| > maxBytes {
        full := true;
        forall more ensures IsOutput(out, seen + lines + more, stampOf, range, maxBytes) {
          Overflow(seen + lines[..i], line, lines[i + 1..] + more, stampOf, range, out, maxBytes);
          assert seen + lines[..i] + [line] + (lines[i + 1..] + more) == seen + lines + more;
        }
        return;
      }
      out := out + chunk;
    }
    assert lines[..|lines|] == lines;
  }

  /** Read the planned files in order. The first line of a file that is not read from its start is only half a line. */
  method Emit(files: seq<File>, plan: seq<Entry>, stampOf: Line -> Stamp, range: Range, maxBytes: int)
    returns (out: seq<Byte>)
    requires Readable(files, plan) && 0 <= maxBytes
    ensures IsOutput(out, Window(files, plan), stampOf, range, maxBytes)
  {
    hide Lines, Selected;
    out := [];
    var lastMs := NoStamp;
    NothingSelected(stampOf, range);
    for e := 0 to |plan|
      invariant out == Out(Selected(Window(files, plan[..e]), stampOf, range)) && |out| <= maxBytes
      invariant lastMs == Governing(Window(files, plan[..e]), stampOf)
    {
      var entry := plan[e];
      var lines := Lines(files[entry.file].value[entry.start..]);
      var first := 0;
      if entry.start > 0 && |lines| > 0 {
        first := 1;
      }
      WindowNext(files, plan, e);
      var full;
      out, lastMs, full := EmitLines(lines[first..], stampOf, range, maxBytes, out, lastMs, Window(files, plan[..e]));
      if full {
        var more := WindowRest(files, plan, e + 1);
        assert IsOutput(out, Window(files, plan[..e]) + lines[first..] + more, stampOf, range, maxBytes);
        return;
      }
    }
    assert plan[..|plan|] == plan;
    var selected := Selected(Window(files, plan), stampOf, range);
    assert selected[..|selected|] == selected && IsFitting(selected, maxBytes, |selected|);
  }

  lemma NothingSelected(stampOf: Line -> Stamp, range: Range)
    ensures Selected([], stampOf, range) == []
  {
  }

  lemma WindowNext(files: seq<File>, plan: seq<Entry>, e: nat)
    requires Readable(files, plan) && e < |plan|
    ensures Window(files, plan[..e + 1]) == Window(files, plan[..e]) + EntryLines(files, plan[e])
  {
    assert plan[..e + 1][..e] == plan[..e];
  }

  lemma {:induction false} WindowRest(files: seq<File>, plan: seq<Entry>, e: nat) returns (more: seq<Line>)
    requires Readable(files, plan) && e <= |plan|
    ensures Window(files, plan) == Window(files, plan[..e]) + more
    decreases |plan| - e
  {
    hide Lines, Window, EntryLines;
    if e == |plan| {
      assert plan[..e] == plan;
      more := [];
    } else {
      WindowNext(files, plan, e);
      var rest := WindowRest(files, plan, e + 1);
      more := EntryLines(files, plan[e]) + rest;
      Associate(Window(files, plan[..e]), EntryLines(files, plan[e]), rest);
    }
  }

  /** What `read` returns: nothing at all if there is nothing to read, else the output and whether some was left out. */
  datatype Reading = NoLog | Reading(out: seq<Byte>, truncated: bool)

  function TotalBytes(files: seq<File>): nat {
    if files == [] then 0 else TotalBytes(files[..|files| - 1]) + SizeOf(files[|files| - 1])
  }

  method Read(files: seq<File>, stampOf: Line -> Stamp, range: Range, maxBytes: int) returns (r: Reading)
    ensures r.NoLog? <==> maxBytes <= 0 || TotalBytes(files) == 0
    ensures r.Reading? ==> IsOutput(r.out, Window(files, Plan(files, maxBytes)), stampOf, range, maxBytes)
    ensures r.Reading? ==> GivesOutFitting(r.out, Window(files, Plan(files, maxBytes)), stampOf, range, maxBytes)
    ensures r.Reading? ==> (r.truncated <==> TotalBytes(files) > maxBytes)
  {
    PlanIsEmpty(files, maxBytes);
    if |files| == 0 {
      return NoLog;
    }
    var plan := PlanWithinBudget(files, maxBytes);
    if |plan| == 0 {
      return NoLog;
    }
    var total := 0;
    for i := 0 to |files|
      invariant total == TotalBytes(files[..i])
    {
      assert files[..i + 1][..i] == files[..i];
      total := total + if files[i].Some? then |files[i].value| else 0;
    }
    assert files[..|files|] == files;
    var out := Emit(files, plan, stampOf, range, maxBytes);
    OutputGivesOut(out, Window(files, plan), stampOf, range, maxBytes);
    r := Reading(out, total > maxBytes);
  }

  lemma {:induction false} PlanIsEmpty(files: seq<File>, budget: int)
    ensures Plan(files, budget) == [] <==> budget <= 0 || TotalBytes(files) == 0
  {
    if files != [] && budget > 0 && SizeOf(files[|files| - 1]) == 0 {
      PlanIsEmpty(files[..|files| - 1], budget);
    }
  }

  // ---- which lines those are ---------------------------------------------------------------------

  /** The governing stamp is that of the nearest stamped line, and missing only if no line has one. */
  lemma {:induction false} GoverningIsNearest(lines: seq<Line>, stampOf: Line -> Stamp)
    ensures Governing(lines, stampOf) == NoStamp <==> forall i :: 0 <= i < |lines| ==> stampOf(lines[i]) == NoStamp
    ensures Governing(lines, stampOf) != NoStamp ==>
      exists i :: 0 <= i < |lines| && stampOf(lines[i]) == Governing(lines, stampOf)
                  && forall j :: i < j < |lines| ==> stampOf(lines[j]) == NoStamp
  {
    if lines != [] {
      var n := |lines| - 1;
      if stampOf(lines[n]) == NoStamp {
        GoverningIsNearest(lines[..n], stampOf);
        assert Governing(lines, stampOf) == Governing(lines[..n], stampOf);
        if Governing(lines, stampOf) != NoStamp {
          var i :| 0 <= i < n && stampOf(lines[..n][i]) == Governing(lines, stampOf)
                   && forall j :: i < j < n ==> stampOf(lines[..n][j]) == NoStamp;
          assert stampOf(lines[i]) == Governing(lines, stampOf)
            && forall j :: i < j < |lines| ==> stampOf(lines[j]) == NoStamp by {
            forall j | i < j < n ensures stampOf(lines[j]) == NoStamp {
              assert lines[..n][j] == lines[j];
            }
          }
        } else {
          forall i | 0 <= i < n ensures stampOf(lines[i]) == NoStamp {
            assert lines[..n][i] == lines[i];
          }
        }
      }
    }
  }

  /** The nearest stamped line at or before line `i`. */
  ghost predicate StandsFor(lines: seq<Line>, stampOf: Line -> Stamp, j: nat, i: nat) {
    && j <= i < |lines| && stampOf(lines[j]) != NoStamp
    && forall m :: j < m <= i ==> stampOf(lines[m]) == NoStamp
  }

  /**
   * Is line `i` given out, if there is room? If it has no stamp and none stands before it, or the nearest
   * one does not parse, it is; otherwise that one must lie between the ends of the range, both included.
   */
  ghost predicate InRange(lines: seq<Line>, stampOf: Line -> Stamp, range: Range, i: nat) {
    forall j: nat :: StandsFor(lines, stampOf, j, i) && stampOf(lines[j]).At? ==>
      && (range.from.Some? ==> range.from.value <= stampOf(lines[j]).ms)
      && (range.to.Some? ==> stampOf(lines[j]).ms <= range.to.value)
  }

  predicate AreBelow(kept: seq<nat>, n: nat) {
    forall a :: 0 <= a < |kept| ==> kept[a] < n
  }

  /** Are `kept` all the lines in range, in their order? */
  ghost predicate AreInRange(lines: seq<Line>, stampOf: Line -> Stamp, range: Range, kept: seq<nat>) {
    && (forall a, b :: 0 <= a < b < |kept| ==> kept[a] < kept[b])
    && AreBelow(kept, |lines|)
    && forall i :: 0 <= i < |lines| ==> (i in kept <==> InRange(lines, stampOf, range, i))
  }

  function Pick(lines: seq<Line>, kept: seq<nat>): seq<Line>
    requires AreBelow(kept, |lines|)
  {
    if kept == [] then [] else Pick(lines, kept[..|kept| - 1]) + [lines[kept[|kept| - 1]]]
  }

  lemma PrefixInRange(lines: seq<Line>, stampOf: Line -> Stamp, range: Range, n: nat, i: nat)
    requires i < n <= |lines|
    ensures InRange(lines[..n], stampOf, range, i) <==> InRange(lines, stampOf, range, i)
  {
    forall j: nat | j <= i ensures StandsFor(lines[..n], stampOf, j, i) <==> StandsFor(lines, stampOf, j, i) {
      assert forall m :: 0 <= m < n ==> lines[..n][m] == lines[m];
    }
  }

  lemma LastInRange(lines: seq<Line>, stampOf: Line -> Stamp, range: Range)
    requires lines != []
    ensures InRange(lines, stampOf, range, |lines| - 1) <==> range.Holds(Governing(lines, stampOf))
  {
    hide Governing;
    GoverningIsNearest(lines, stampOf);
    var n := |lines| - 1;
    if Governing(lines, stampOf) != NoStamp {
      var i :| 0 <= i < |lines| && stampOf(lines[i]) == Governing(lines, stampOf)
        && forall j :: i < j < |lines| ==> stampOf(lines[j]) == NoStamp;
      assert StandsFor(lines, stampOf, i, n);
      forall j: nat | StandsFor(lines, stampOf, j, n) ensures j == i {
        assert stampOf(lines[j]) != NoStamp && stampOf(lines[i]) != NoStamp;
      }
    }
  }

  lemma {:induction false} PickOfPrefix(lines: seq<Line>, n: nat, kept: seq<nat>)
    requires n <= |lines| && AreBelow(kept, n)
    ensures Pick(lines[..n], kept) == Pick(lines, kept)
  {
    if kept != [] {
      PickOfPrefix(lines, n, kept[..|kept| - 1]);
    }
  }

  lemma PickOne(lines: seq<Line>, kept: seq<nat>, n: nat)
    requires n < |lines| && AreBelow(kept, n)
    ensures AreBelow(kept + [n], |lines|) && Pick(lines, kept + [n]) == Pick(lines[..n], kept) + [lines[n]]
  {
    PickOfPrefix(lines, n, kept);
    assert (kept + [n])[..|kept|] == kept;
  }

  lemma KeepOne(lines: seq<Line>, stampOf: Line -> Stamp, range: Range, before: seq<nat>)
    requires lines != [] && AreInRange(lines[..|lines| - 1], stampOf, range, before)
    ensures var n := |lines| - 1;
      AreInRange(lines, stampOf, range, before + if InRange(lines, stampOf, range, n) then [n] else [])
  {
    hide InRange;
    var n := |lines| - 1;
    var kept := before + if InRange(lines, stampOf, range, n) then [n] else [];
    assert AreBelow(before, n);
    forall i | 0 <= i < |lines| ensures i in kept <==> InRange(lines, stampOf, range, i) {
      if i < n {
        PrefixInRange(lines, stampOf, range, n, i);
        assert i in before <==> i in kept;
      } else {
        assert i !in before;
      }
    }
  }

  /** What is selected are the lines in range, and nothing else, in their order. */
  lemma {:induction false} SelectedAre(lines: seq<Line>, stampOf: Line -> Stamp, range: Range) returns (kept: seq<nat>)
    ensures AreInRange(lines, stampOf, range, kept) && Selected(lines, stampOf, range) == Pick(lines, kept)
  {
    hide Governing, InRange;
    if lines == [] {
      kept := [];
    } else {
      var n := |lines| - 1;
      var before := SelectedAre(lines[..n], stampOf, range);
      KeepOne(lines, stampOf, range, before);
      LastInRange(lines, stampOf, range);
      if InRange(lines, stampOf, range, n) {
        kept := before + [n];
        PickOne(lines, before, n);
      } else {
        kept := before + [];
        assert kept == before;
        PickOfPrefix(lines, n, before);
      }
    }
  }

  /** Is `out` made of the lines in range, all of them or as many from the first as fit? */
  ghost predicate GivesOut(out: seq<Byte>, lines: seq<Line>, stampOf: Line -> Stamp, range: Range) {
    exists kept: seq<nat> :: AreInRange(lines, stampOf, range, kept) && out == Out(Pick(lines, kept))
  }

  ghost predicate GivesOutFitting(out: seq<Byte>, lines: seq<Line>, stampOf: Line -> Stamp,
                                  range: Range, maxBytes: int) {
    exists kept: seq<nat>, n: nat ::
      && AreInRange(lines, stampOf, range, kept) && IsFitting(Pick(lines, kept), maxBytes, n)
      && out == Out(Pick(lines, kept)[..n])
  }

  lemma SelectedGivesOut(lines: seq<Line>, stampOf: Line -> Stamp, range: Range)
    ensures GivesOut(Out(Selected(lines, stampOf, range)), lines, stampOf, range)
  {
    hide AreInRange, Out, Selected;
    var _ := SelectedAre(lines, stampOf, range);
  }

  lemma OutputGivesOut(out: seq<Byte>, lines: seq<Line>, stampOf: Line -> Stamp, range: Range, maxBytes: int)
    requires IsOutput(out, lines, stampOf, range, maxBytes)
    ensures GivesOutFitting(out, lines, stampOf, range, maxBytes)
  {
    hide Out, Selected, InRange;
    var kept := SelectedAre(lines, stampOf, range);
    var n: nat :| IsFitting(Selected(lines, stampOf, range), maxBytes, n)
      && out == Out(Selected(lines, stampOf, range)[..n]);
    assert IsFitting(Pick(lines, kept), maxBytes, n);
  }

  /** Without a time range every line is selected. */
  lemma {:induction false} NoRangeSelectsAll(lines: seq<Line>, stampOf: Line -> Stamp)
    ensures Selected(lines, stampOf, Range(None, None)) == lines
  {
    if lines != [] {
      NoRangeSelectsAll(lines[..|lines| - 1], stampOf);
    }
  }

  /** The last line of the file is terminated. */
  predicate Ended(b: seq<Byte>) {
    b != [] ==> b[|b| - 1] == LF || b[|b| - 1] == CR
  }

  predicate AllEnded(files: seq<File>) {
    forall i :: 0 <= i < |files| && files[i].Some? ==> Ended(files[i].value)
  }

  /** No line is terminated by a carriage return and a newline together. */
  predicate PlainEnds(b: seq<Byte>) {
    forall i :: 0 <= i < |b| - 1 ==> !(b[i] == CR && b[i + 1] == LF)
  }

  predicate AllPlainEnds(files: seq<File>) {
    forall i :: 0 <= i < |files| && files[i].Some? ==> PlainEnds(files[i].value)
  }

  lemma OutFirst(line: Line, rest: seq<Line>)
    ensures Out([line] + rest) == (line + [LF]) + Out(rest)
  {
    OutConcat([line], rest);
    assert [line] == [] + [line];
    OutNext([], line);
  }

  /** Each line takes up at least what is given out for it, and no more if its terminator is one byte. */
  ghost predicate Covered(lines: seq<Line>, weights: seq<nat>, exact: bool) {
    && |weights| == |lines|
    && forall i :: 0 <= i < |lines| ==> |lines[i]| + 1 <= weights[i] && (exact ==> weights[i] == |lines[i]| + 1)
  }

  lemma EndedFirst(b: seq<Byte>)
    requires Ended(b) && b != []
    ensures LineEnd(b) < |b| && Ended(AfterFirst(b)) && (PlainEnds(b) ==> PlainEnds(AfterFirst(b)))
    ensures PlainEnds(b) ==> Terminator(b, LineEnd(b)) == 1
  {
    assert b[|b| - 1] == LF || b[|b| - 1] == CR;
  }

  /** The terminated lines of a file. */
  lemma {:induction false} LinesCovered(b: seq<Byte>)
    requires Ended(b)
    ensures Covered(Lines(b), Weights(b), PlainEnds(b))
    decreases |b|
  {
    if b != [] {
      hide Lines, LineEnd, Weights, Ended, PlainEnds;
      EndedFirst(b);
      FirstLine(b);
      FirstWeight(b);
      LinesCovered(AfterFirst(b));
      CoveredFirst(b[..LineEnd(b)], LineEnd(b) + Terminator(b, LineEnd(b)),
                   Lines(AfterFirst(b)), Weights(AfterFirst(b)), PlainEnds(b));
    }
  }

  lemma CoveredFirst(line: Line, weight: nat, lines: seq<Line>, weights: seq<nat>, exact: bool)
    requires |line| + 1 <= weight && (exact ==> weight == |line| + 1)
    requires Covered(lines, weights, exact) || (!exact && Covered(lines, weights, true))
    ensures Covered([line] + lines, [weight] + weights, exact)
  {
  }

  /** All lines of files that end theirs. */
  lemma {:induction false} AllCovered(files: seq<File>)
    requires AllEnded(files)
    ensures Covered(AllLines(files), AllWeights(files), AllPlainEnds(files))
  {
    if files != [] {
      hide Lines, Weights, Ended, PlainEnds, AllEnded, AllPlainEnds, AllLines, AllWeights;
      ByLastFile(files);
      var i := |files| - 1;
      AllCovered(files[..i]);
      if files[i].Some? {
        LinesCovered(files[i].value);
      }
    }
  }

  /** What is given out for such lines is at most what they take up. */
  lemma {:induction false} CoveredOut(lines: seq<Line>, weights: seq<nat>, exact: bool, k: nat)
    requires Covered(lines, weights, exact) && k <= |lines|
    ensures |Out(lines[k..])| <= SumN(weights[k..]) && (exact ==> |Out(lines[k..])| == SumN(weights[k..]))
    decreases |lines| - k
  {
    hide Out;
    if k == |lines| {
      NothingFrom(weights);
      OutOfNothing(lines);
    } else {
      CoveredOut(lines, weights, exact, k + 1);
      SumNTail(weights, k);
      OneMoreLine(lines, k);
    }
  }

  lemma OneMoreLine(lines: seq<Line>, k: nat)
    requires k < |lines|
    ensures |Out(lines[k..])| == |lines[k]| + 1 + |Out(lines[k + 1..])|
  {
    assert lines[k..] == [lines[k]] + lines[k + 1..];
    OutFirst(lines[k], lines[k + 1..]);
  }

  lemma OutOfNothing(lines: seq<Line>)
    ensures Out(lines[|lines|..]) == [] && lines[|lines|..] == []
  {
  }

  /** What is selected takes up no more than all of it. */
  lemma {:induction false} SelectedIsLess(lines: seq<Line>, stampOf: Line -> Stamp, range: Range)
    ensures |Out(Selected(lines, stampOf, range))| <= |Out(lines)|
  {
    if lines != [] {
      hide Governing;
      var n := |lines| - 1;
      SelectedIsLess(lines[..n], stampOf, range);
      assert lines == lines[..n] + [lines[n]];
      OutNext(lines[..n], lines[n]);
      OutNext(Selected(lines[..n], stampOf, range), lines[n]);
      assert Selected(lines[..n], stampOf, range) + [] == Selected(lines[..n], stampOf, range);
    }
  }

  /**
   * For files that end their last lines, and any time range, the output is the selection of a
   * contiguous suffix of all lines: all that is selected of these is given out, nothing newer is
   * missing, and two lines more would not fit, counted as the bytes they take up in the files;
   * counted as given out, too, where no line ends in two bytes.
   */
  lemma NewestLines(files: seq<File>, stampOf: Line -> Stamp, range: Range, maxBytes: nat, out: seq<Byte>)
    returns (k: nat)
    requires AllEnded(files)
    requires IsOutput(out, Window(files, Plan(files, maxBytes)), stampOf, range, maxBytes)
    ensures k <= |AllLines(files)| && out == Out(Selected(AllLines(files)[k..], stampOf, range))
    ensures GivesOut(out, AllLines(files)[k..], stampOf, range)
    ensures range == Range(None, None) ==> out == Out(AllLines(files)[k..])
    ensures |out| <= SumN(AllWeights(files)[k..]) <= maxBytes
    ensures k >= 1 ==> maxBytes <= SumN(AllWeights(files)[k - 1..])
    ensures k >= 2 ==> maxBytes < SumN(AllWeights(files)[k - 2..])
    ensures k >= 2 && AllPlainEnds(files) ==> maxBytes < |Out(AllLines(files)[k - 2..])|
  {
    hide Lines, Plan, AllLines, AllWeights, Out, SumN, AllEnded, AllPlainEnds, Selected;
    k := WindowIsTight(files, maxBytes);
    var window := Window(files, Plan(files, maxBytes));
    AllCovered(files);
    CoveredOut(AllLines(files), AllWeights(files), AllPlainEnds(files), k);
    SelectedIsLess(window, stampOf, range);
    NoRangeSelectsAll(window, stampOf);
    AllGivenOut(window, stampOf, range, maxBytes, out);
    SelectedGivesOut(window, stampOf, range);
    if k >= 2 {
      SumNTail(AllWeights(files), k - 2);
      CoveredOut(AllLines(files), AllWeights(files), AllPlainEnds(files), k - 2);
    }
  }

  lemma AllGivenOut(window: seq<Line>, stampOf: Line -> Stamp, range: Range, maxBytes: int, out: seq<Byte>)
    requires IsOutput(out, window, stampOf, range, maxBytes) && |Out(Selected(window, stampOf, range))| <= maxBytes
    ensures out == Out(Selected(window, stampOf, range))
  {
    hide Out, Selected;
    var selected := Selected(window, stampOf, range);
    var n: nat :| IsFitting(selected, maxBytes, n) && out == Out(selected[..n]);
    AllFits(selected, maxBytes, n);
  }

  // ---- a time range and the cut ----------------------------------------------------------------------

  /** How many lines at the front have no stamp. */
  function Unstamped(lines: seq<Line>, stampOf: Line -> Stamp): (n: nat)
    ensures n <= |lines| && (n < |lines| ==> stampOf(lines[n]) != NoStamp)
    ensures forall i :: 0 <= i < n ==> stampOf(lines[i]) == NoStamp
  {
    if lines == [] || stampOf(lines[0]) != NoStamp then 0 else 1 + Unstamped(lines[1..], stampOf)
  }

  lemma {:induction false} GoverningOfConcat(a: seq<Line>, b: seq<Line>, stampOf: Line -> Stamp)
    ensures Governing(a + b, stampOf)
         == if Governing(b, stampOf) != NoStamp then Governing(b, stampOf) else Governing(a, stampOf)
  {
    if b == [] {
      assert a + b == a;
    } else {
      assert (a + b)[..|a + b| - 1] == a + b[..|b| - 1];
      GoverningOfConcat(a, b[..|b| - 1], stampOf);
    }
  }

  /** Behind a stamped line it does not matter what came before. */
  lemma {:induction false} SelectedOfConcat(a: seq<Line>, b: seq<Line>, stampOf: Line -> Stamp, range: Range)
    requires b != [] ==> stampOf(b[0]) != NoStamp
    ensures Selected(a + b, stampOf, range) == Selected(a, stampOf, range) + Selected(b, stampOf, range)
  {
    if b == [] {
      assert a + b == a;
    } else {
      var n := |b| - 1;
      assert (a + b)[..|a + b| - 1] == a + b[..n] && (a + b)[|a + b| - 1] == b[n];
      SelectedOfConcat(a, b[..n], stampOf, range);
      GoverningOfConcat(a, b, stampOf);
      StampedGoverns(b, stampOf);
      Associate(Selected(a, stampOf, range), Selected(b[..n], stampOf, range),
                if range.Holds(Governing(b, stampOf)) then [b[n]] else []);
    }
  }

  lemma {:induction false} StampedGoverns(b: seq<Line>, stampOf: Line -> Stamp)
    requires b != [] && stampOf(b[0]) != NoStamp
    ensures Governing(b, stampOf) != NoStamp
  {
    if |b| > 1 {
      StampedGoverns(b[..|b| - 1], stampOf);
    }
  }

  /** Lines without a stamp go with the one before them; with none at all before them they are selected. */
  lemma {:induction false} SelectedUnstamped(a: seq<Line>, b: seq<Line>, stampOf: Line -> Stamp, range: Range)
    requires forall i :: 0 <= i < |b| ==> stampOf(b[i]) == NoStamp
    ensures Governing(a + b, stampOf) == Governing(a, stampOf)
    ensures Selected(a + b, stampOf, range)
         == Selected(a, stampOf, range) + if range.Holds(Governing(a, stampOf)) then b else []
  {
    if b == [] {
      assert a + b == a;
    } else {
      var n := |b| - 1;
      assert (a + b)[..|a + b| - 1] == a + b[..n] && (a + b)[|a + b| - 1] == b[n];
      SelectedUnstamped(a, b[..n], stampOf, range);
      assert b == b[..n] + [b[n]];
      Associate(Selected(a, stampOf, range), b[..n], [b[n]]);
    }
  }

  /** The lines at the front of a window that have no stamp, and the rest, that begins with one. */
  lemma WindowParts(lines: seq<Line>, k: nat, stampOf: Line -> Stamp, range: Range)
    requires k <= |lines|
    ensures var u := Unstamped(lines[k..], stampOf);
      && k + u <= |lines|
      && Selected(lines[k..], stampOf, range) == lines[k..k + u] + Selected(lines[k + u..], stampOf, range)
      && Selected(lines, stampOf, range)
           == Selected(lines[..k], stampOf, range)
              + (if range.Holds(Governing(lines[..k], stampOf)) then lines[k..k + u] else [])
              + Selected(lines[k + u..], stampOf, range)
  {
    hide Selected, Governing;
    var before, window := lines[..k], lines[k..];
    var u := Unstamped(window, stampOf);
    var front, rest := window[..u], window[u..];
    ThreeParts(lines, k, u);
    SelectedOfConcat(front, rest, stampOf, range);
    NothingGoverns(stampOf);
    NothingSelected(stampOf, range);
    assert [] + front == front;
    SelectedUnstamped([], front, stampOf, range);
    SelectedOfConcat(before + front, rest, stampOf, range);
    SelectedUnstamped(before, front, stampOf, range);
  }

  lemma ThreeParts(lines: seq<Line>, k: nat, u: nat)
    requires k + u <= |lines|
    ensures var before, window := lines[..k], lines[k..];
      && window == window[..u] + window[u..] && lines == before + window[..u] + window[u..]
      && window[..u] == lines[k..k + u] && window[u..] == lines[k + u..]
  {
  }

  lemma NothingGoverns(stampOf: Line -> Stamp)
    ensures Governing([], stampOf) == NoStamp
  {
  }

  /**
   * What is selected of a window is the end of what is selected of the whole log exactly when the
   * window does not begin in the middle of an entry that is out of range: the lines of such an entry
   * that are left, a cut stack, have lost their stamp and are given out all the same.
   */
  lemma SelectionOfWindow(lines: seq<Line>, k: nat, stampOf: Line -> Stamp, range: Range)
    requires k <= |lines|
    ensures
      Selected(lines, stampOf, range) == Selected(lines[..k], stampOf, range) + Selected(lines[k..], stampOf, range)
      <==> Unstamped(lines[k..], stampOf) == 0 || range.Holds(Governing(lines[..k], stampOf))
  {
    hide Selected, Governing;
    WindowParts(lines, k, stampOf, range);
    var u := Unstamped(lines[k..], stampOf);
    var a, front := Selected(lines[..k], stampOf, range), lines[k..k + u];
    var rest := Selected(lines[k + u..], stampOf, range);
    Associate(a, front, rest);
    assert |a + front + rest| == |a + [] + rest| + u;
    assert u == 0 ==> front == [];
  }

  lemma {:induction false} OutGrows(lines: seq<Line>, n: nat)
    requires n <= |lines|
    ensures |Out(lines[..n])| <= |Out(lines)|
  {
    assert lines == lines[..n] + lines[n..];
    OutConcat(lines[..n], lines[n..]);
  }

  lemma AllFits(lines: seq<Line>, maxBytes: int, n: nat)
    requires IsFitting(lines, maxBytes, n) && |Out(lines)| <= maxBytes
    ensures n == |lines| && lines[..n] == lines
  {
    if n < |lines| {
      OutGrows(lines, n + 1);
    }
  }

  /** For instance: an entry out of range, a stamped line and one without, cut between the two. */
  lemma CutEntryComesOut(stampOf: Line -> Stamp, head: Line, stack: Line, range: Range)
    requires stampOf(stack) == NoStamp && stampOf(head) != NoStamp && !range.Holds(stampOf(head))
    ensures Selected([head] + [stack], stampOf, range) == [] && Selected([stack], stampOf, range) == [stack]
  {
    NothingSelected(stampOf, range);
    NothingGoverns(stampOf);
    SelectedUnstamped([], [stack], stampOf, range);
    SelectedUnstamped([head], [stack], stampOf, range);
    NextLine([], head, stampOf, range);
    assert [] + [stack] == [stack] && [] + [head] == [head];
  }

  // ---- what the output counts -------------------------------------------------------------------------

  /** How many lines end in a carriage return and a newline. */
  function TwoByteEnds(b: seq<Byte>): nat {
    if |b| < 2 then 0 else (if b[0] == CR && b[1] == LF then 1 else 0) + TwoByteEnds(b[1..])
  }

  lemma {:induction false} NoEndsInside(b: seq<Byte>, n: nat)
    requires n <= LineEnd(b)
    ensures TwoByteEnds(b) == TwoByteEnds(b[n..])
  {
    if n > 0 {
      NoEndsInside(b[1..], n - 1);
      SliceOfSlice(b, 1, n - 1);
    } else {
      assert b[0..] == b;
    }
  }

  lemma EndsAtBreak(d: seq<Byte>)
    requires d != []
    ensures |d| >= 2 && d[0] == CR && d[1] == LF ==> TwoByteEnds(d) == 1 + TwoByteEnds(d[2..])
    ensures !(|d| >= 2 && d[0] == CR && d[1] == LF) ==> TwoByteEnds(d) == TwoByteEnds(d[1..])
  {
    if |d| >= 2 && d[0] == CR && d[1] == LF {
      assert d[1..][0] == LF && d[1..][1..] == d[2..];
    }
  }

  lemma EndsOfFirst(b: seq<Byte>)
    requires LineEnd(b) < |b|
    ensures TwoByteEnds(b) == Terminator(b, LineEnd(b)) - 1 + TwoByteEnds(AfterFirst(b))
  {
    hide LineEnd, Lines, TwoByteEnds, AfterFirst;
    var n := LineEnd(b);
    NoEndsInside(b, n);
    EndsAtBreak(b[n..]);
    BreakSlices(b, n);
    AfterFirstIs(b);
  }

  lemma BreakSlices(b: seq<Byte>, n: nat)
    requires n < |b|
    ensures b[n..] != [] && b[n..][0] == b[n] && b[n..][1..] == b[n + 1..]
    ensures n + 1 < |b| ==> |b[n..]| >= 2 && b[n..][1] == b[n + 1] && b[n..][2..] == b[n + 2..]
  {
  }

  lemma AfterFirstIs(b: seq<Byte>)
    requires LineEnd(b) < |b|
    ensures AfterFirst(b) == b[LineEnd(b) + Terminator(b, LineEnd(b))..]
  {
  }

  /** What is given out for a file is its size without these carriage returns, and a newline for an unended line. */
  lemma {:induction false} OutputSize(b: seq<Byte>)
    ensures |Out(Lines(b))| + TwoByteEnds(b) == |b| + if Ended(b) then 0 else 1
    decreases |b|
  {
    hide Lines, LineEnd, Out, TwoByteEnds, Ended;
    if b == [] {
      NothingOut();
    } else if LineEnd(b) == |b| {
      UnendedOut(b);
    } else {
      FirstCons(b);
      EndsOfFirst(b);
      OutFirst(b[..LineEnd(b)], Lines(AfterFirst(b)));
      OutputSize(AfterFirst(b));
      EndedRest(b);
    }
  }

  lemma NothingOut()
    ensures Out(Lines([])) == [] && TwoByteEnds([]) == 0 && Ended([])
  {
  }

  lemma UnendedOut(b: seq<Byte>)
    requires b != [] && LineEnd(b) == |b|
    ensures |Out(Lines(b))| == |b| + 1 && TwoByteEnds(b) == 0 && !Ended(b)
  {
    OneOut(b);
    NoEndsInside(b, |b|);
    var last := |b| - 1;
    assert b[last] != LF && b[last] != CR;
  }

  lemma EndedRest(b: seq<Byte>)
    requires LineEnd(b) < |b|
    ensures Ended(AfterFirst(b)) <==> Ended(b)
  {
    hide LineEnd, Lines;
    var past := LineEnd(b) + Terminator(b, LineEnd(b));
    if past < |b| {
      assert AfterFirst(b)[|b| - past - 1] == b[|b| - 1];
    }
  }

  /** The bytes of all files that are not given out, and the newlines that are added. */
  function Dropped(files: seq<File>): nat {
    if files == [] then 0
    else Dropped(files[..|files| - 1])
         + if files[|files| - 1].Some? then TwoByteEnds(files[|files| - 1].value) else 0
  }

  function Added(files: seq<File>): nat {
    if files == [] then 0
    else Added(files[..|files| - 1])
         + if files[|files| - 1].Some? && !Ended(files[|files| - 1].value) then 1 else 0
  }

  lemma {:induction false} TotalOutput(files: seq<File>)
    ensures |Out(AllLines(files))| + Dropped(files) == TotalBytes(files) + Added(files)
  {
    if files == [] {
      NothingOut();
    } else {
      hide Lines, Out, AllLines, TotalBytes, TwoByteEnds, Ended, AllEnded, AllPlainEnds, AllWeights;
      var init, last := files[..|files| - 1], files[|files| - 1];
      ByLastFile(files);
      TotalOutput(init);
      if last.Some? {
        OutputSize(last.value);
        OutConcat(AllLines(init), Lines(last.value));
      }
    }
  }

  /** A log within the budget is given out as a whole exactly if the newlines added to it leave it within. */
  lemma WholeLogComesOut(files: seq<File>, stampOf: Line -> Stamp, maxBytes: nat, out: seq<Byte>)
    requires TotalBytes(files) <= maxBytes
    requires IsOutput(out, Window(files, Plan(files, maxBytes)), stampOf, Range(None, None), maxBytes)
    ensures out == Out(AllLines(files)) <==> TotalBytes(files) + Added(files) <= maxBytes + Dropped(files)
  {
    hide Lines, Plan, AllLines, Out, Selected;
    WholeWindow(files, maxBytes);
    NoRangeSelectsAll(AllLines(files), stampOf);
    TotalOutput(files);
    LosesNewest(AllLines(files), stampOf, Range(None, None), maxBytes, out);
  }

  /** Nothing is left out of what is selected when the reader does not say so. */
  lemma NotTruncated(files: seq<File>, stampOf: Line -> Stamp, range: Range, maxBytes: nat, out: seq<Byte>)
    requires AllEnded(files) && TotalBytes(files) <= maxBytes
    requires IsOutput(out, Window(files, Plan(files, maxBytes)), stampOf, range, maxBytes)
    ensures out == Out(Selected(AllLines(files), stampOf, range)) && |out| <= TotalBytes(files)
    ensures GivesOut(out, AllLines(files), stampOf, range)
    ensures AllPlainEnds(files) && range == Range(None, None) ==> |out| == TotalBytes(files)
  {
    hide Lines, Plan, AllLines, AllWeights, Out, SumN, AllEnded, AllPlainEnds, Selected;
    TotalWeight(files);
    AllCovered(files);
    CoveredOut(AllLines(files), AllWeights(files), AllPlainEnds(files), 0);
    assert AllLines(files)[0..] == AllLines(files) && AllWeights(files)[0..] == AllWeights(files);
    WholeWindow(files, maxBytes);
    SelectedIsLess(AllLines(files), stampOf, range);
    NoRangeSelectsAll(AllLines(files), stampOf);
    AllGivenOut(AllLines(files), stampOf, range, maxBytes, out);
    SelectedGivesOut(AllLines(files), stampOf, range);
  }

  lemma {:induction false} TotalWeight(files: seq<File>)
    ensures SumN(AllWeights(files)) == TotalBytes(files)
  {
    if files != [] {
      hide Lines, Weights, AllLines, AllWeights, SumN, AllEnded, AllPlainEnds, TotalBytes;
      var i := |files| - 1;
      ByLastFile(files);
      TotalWeight(files[..i]);
      if files[i].Some? {
        WeightsAdd(files[i].value);
        SumNConcat(AllWeights(files[..i]), Weights(files[i].value));
      }
    } else {
      NoWeight();
    }
  }

  lemma EmptyFileIsSkipped(files: seq<File>, budget: int)
    requires files != [] && SizeOf(files[|files| - 1]) == 0
    ensures var init := files[..|files| - 1];
      && Plan(files, budget) == Plan(init, budget) && AllLines(files) == AllLines(init)
      && AllWeights(files) == AllWeights(init)
      && Window(files, Plan(files, budget)) == Window(init, Plan(init, budget))
  {
    EmptyFile(files[|files| - 1]);
    hide Lines;
    if budget > 0 {
      WindowOfPrefix(files, |files| - 1, Plan(files, budget));
    }
  }

  lemma {:induction false} WholeWindow(files: seq<File>, budget: nat)
    requires TotalBytes(files) <= budget
    ensures Window(files, Plan(files, budget)) == AllLines(files)
  {
    hide Lines, Plan, Window, AllLines, TotalBytes;
    if files == [] {
      NothingPlanned(files, budget);
    } else {
      var i := |files| - 1;
      ByLastFile(files);
      if SizeOf(files[i]) == 0 {
        EmptyFileIsSkipped(files, budget);
        WholeWindow(files[..i], budget);
      } else {
        WholeWindow(files[..i], budget - SizeOf(files[i]));
        WholeFile(files, budget);
      }
    }
  }

  /**
   * When a file does not end its last line, the newline that is given out for it can push out the
   * newest selected lines instead of the oldest: exactly when these with their newlines are over the limit.
   */
  lemma LosesNewest(window: seq<Line>, stampOf: Line -> Stamp, range: Range, maxBytes: int, out: seq<Byte>)
    requires IsOutput(out, window, stampOf, range, maxBytes)
    ensures out == Out(Selected(window, stampOf, range)) <==> |Out(Selected(window, stampOf, range))| <= maxBytes
  {
    if |Out(Selected(window, stampOf, range))| <= maxBytes {
      AllGivenOut(window, stampOf, range, maxBytes, out);
    }
  }

  /** For instance: "a" in the older file, "b\n" in the newer one, and room for 3 bytes. Only "a\n" comes out. */
  lemma NewestLost(stampOf: Line -> Stamp, older: File, newer: File, out: seq<Byte>)
    requires older == Some([97]) && newer == Some([98, LF])
    requires IsOutput(out, Window([older, newer], Plan([older, newer], 3)), stampOf, Range(None, None), 3)
    ensures TotalBytes([older, newer]) == 3 && AllLines([older, newer]) == [[97], [98]] && out == [97, LF]
  {
    TwoFiles(older, newer);
    ShortLines();
    WholeWindow([older, newer], 3);
    hide Lines, Plan, AllLines, Window;
    NoRangeSelectsAll([[97]] + [[98]], stampOf);
    OutNext([], [97]);
    OutNext([[97]], [98]);
    OnlyFirstFits([97], [98], 3, out);
  }

  /**
   * A carriage return before each newline counts against the limit, though it is not given out: of
   * "a\r\nb\r\nc\r\n" and room for 6 bytes only "c\n" comes out, where all three lines would fit.
   */
  lemma TwoByteEndsCost(stampOf: Line -> Stamp, a: seq<Byte>, b: seq<Byte>, c: seq<Byte>, out: seq<Byte>)
    requires a == [97, CR, LF] && b == [98, CR, LF] && c == [99, CR, LF]
    requires IsOutput(out, Window([Some(a + b + c)], Plan([Some(a + b + c)], 6)), stampOf, Range(None, None), 6)
    ensures out == [99, LF] && |Out(AllLines([Some(a + b + c)]))| == 6
  {
    hide Lines, LineEnd, Window, Plan, AllLines, Out;
    TwoByteLine(97, a);
    TwoByteLine(98, b);
    TwoByteLine(99, c);
    ThreeLines(a, b, c);
    CutFile([Some(a + b + c)], 6);
    OnlyFile(Some(a + b + c));
    ThreeOut([97], [98], [99]);
    NoRangeSelectsAll([[99]], stampOf);
    AllOfOne([99], 6, out);
  }

  lemma ThreeLines(a: seq<Byte>, b: seq<Byte>, c: seq<Byte>)
    requires |a| == |b| == |c| == 3 && a[2] == b[2] == c[2] == LF && |Lines(b)| == 1
    ensures |a + b + c| == 9 && (a + b + c)[3..] == b + c && Lines(a + b + c) == Lines(a) + Lines(b) + Lines(c)
    ensures Drop(Lines(b + c), 1) == Lines(c)
  {
    hide Lines, Drop;
    EndsLikeItsEnd(a, b);
    LinesAppend(a + b, c);
    LinesAppend(a, b);
    LinesAppend(b, c);
    DropHead(Lines(b), Lines(c));
    Associate(a, b, c);
    DropHead(a, b + c);
  }

  lemma EndsLikeItsEnd(a: seq<Byte>, b: seq<Byte>)
    requires b != []
    ensures (a + b)[|a + b| - 1] == b[|b| - 1]
  {
  }

  lemma DropHead<T>(a: seq<T>, b: seq<T>)
    ensures Drop(a + b, |a|) == b && (a + b)[|a|..] == b
  {
  }

  lemma ThreeOut(a: Line, b: Line, c: Line)
    ensures |Out([a] + [b] + [c])| == |a| + |b| + |c| + 3
  {
    hide Out;
    OutConcat([a] + [b], [c]);
    OutConcat([a], [b]);
    OneOut(a);
    OneOut(b);
    OneOut(c);
  }

  lemma OneOut(a: Line)
    ensures Out([a]) == a + [LF]
  {
    OutNext([], a);
    assert [a] == [] + [a];
  }

  lemma TwoByteLine(x: Byte, b: seq<Byte>)
    requires b == [x, CR, LF] && x != CR && x != LF
    ensures Lines(b) == [[x]]
  {
    assert b[1..] == [CR, LF] && LineEnd(b) == 1 && AfterFirst(b) == [];
    assert b[..1] == [x];
  }

  lemma OnlyFile(a: File)
    requires a.Some?
    ensures AllLines([a]) == Lines(a.value)
  {
    hide Lines;
    assert [a][..0] == [];
  }

  lemma AllOfOne(a: Line, maxBytes: int, out: seq<Byte>)
    requires |a| + 1 <= maxBytes && exists n: nat :: IsFitting([a], maxBytes, n) && out == Out([a][..n])
    ensures out == a + [LF]
  {
    OneOut(a);
    var n: nat :| IsFitting([a], maxBytes, n) && out == Out([a][..n]);
    AllFits([a], maxBytes, n);
  }

  lemma OnlyFirstFits(a: Line, b: Line, maxBytes: int, out: seq<Byte>)
    requires |a| + 1 <= maxBytes < |a| + |b| + 2
    requires exists n: nat :: IsFitting([a] + [b], maxBytes, n) && out == Out(([a] + [b])[..n])
    ensures out == a + [LF]
  {
    OutNext([], a);
    OutNext([a], b);
    assert [a] == [] + [a] && ([a] + [b])[..0] == [] && ([a] + [b])[..1] == [a] && ([a] + [b])[..2] == [a] + [b];
    assert |Out(([a] + [b])[..2])| == |a| + |b| + 2 && |Out(([a] + [b])[..1])| == |a| + 1;
  }

  lemma TwoFiles(a: File, b: File)
    requires a.Some? && b.Some?
    ensures TotalBytes([a, b]) == |a.value| + |b.value| && AllLines([a, b]) == Lines(a.value) + Lines(b.value)
  {
    hide Lines;
    assert [a, b][..1] == [a] && [a][..0] == [];
    assert TotalBytes([]) == 0 && TotalBytes([a]) == TotalBytes([]) + SizeOf(a);
    assert AllLines([a]) == Lines(a.value);
  }

  lemma ShortLines()
    ensures Lines([97]) == [[97]] && Lines([98, LF]) == [[98]]
  {
    assert [97][1..] == [] && [98, LF][1..] == [LF];
    assert LineEnd([97]) == 1 && LineEnd([98, LF]) == 1;
    assert [98, LF][..1] == [98] && [98, LF][2..] == [];
  }
}
