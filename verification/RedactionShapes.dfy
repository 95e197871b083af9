/** What is written for command lines, long texts, long lists and deep values, said without the functions that do it. */
module RedactionShapes {
  import opened Redaction
  import opened RedactionKeys

  // ---- text --------------------------------------------------------------------------------------

  /** A redacted text of more than 4000 units is cut there, and marked. */
  lemma TextIsCut(redactLine: Text -> Text, text: Text, depth: nat)
    ensures var line := redactLine(text);
      Redact(redactLine, Str(text), depth, false)
        == Str(if |line| <= 4000 then line else line[..4000] + ([0x2026] + U("[truncated]")))
  {
    hide U;
    MarkOfCut();
  }

  lemma MarkOfCut()
    ensures U("\U{2026}[truncated]") == [0x2026] + U("[truncated]")
  {
    assert "\U{2026}[truncated]" == "\U{2026}" + "[truncated]";
    UnitsOfConcat("\U{2026}", "[truncated]");
    assert U("\U{2026}") == [0x2026];
  }

  lemma UnitsOfConcat(a: string, b: string)
    ensures U(a + b) == U(a) + U(b)
  {
  }

  // ---- lists and depth ---------------------------------------------------------------------------

  /** The number that decimal digits stand for. */
  function NumberOf(ds: Text): int {
    if ds == [] then 0 else 10 * NumberOf(ds[..|ds| - 1]) + (ds[|ds| - 1] as int - 0x30)
  }

  lemma {:induction false} DigitsRead(n: nat)
    ensures NumberOf(DigitsOf(n)) == n && DigitsOf(n) != []
    ensures forall i :: 0 <= i < |DigitsOf(n)| ==> Digit(DigitsOf(n)[i])
  {
    if n >= 10 {
      DigitsRead(n / 10);
      var ds := DigitsOf(n);
      assert ds[..|ds| - 1] == DigitsOf(n / 10) && ds[|ds| - 1] == 0x30 + n % 10;
    } else {
      assert DigitsOf(n)[..0] == [];
    }
  }

  /** Of a list the first 200 items are kept, and behind them stands how many there are more. */
  lemma ListIsCut(redactLine: Text -> Text, items: seq<Value>, depth: nat) returns (more: Text)
    requires depth < 6
    ensures NumberOf(more) == if |items| > 200 then |items| - 200 else 0
    ensures forall i :: 0 <= i < |more| ==> Digit(more[i])
    ensures var r := Redact(redactLine, Arr(items), depth, false);
      && r.Arr?
      && (if |items| <= 200 then |r.items| == |items|
          else |r.items| == 201 && r.items[200] == Str([0x2026] + U("+") + more + U(" more")))
      && forall i :: 0 <= i < |items| && i < 200 ==> r.items[i] == Redact(redactLine, items[i], depth + 1, false)
  {
    more := if |items| > 200 then DigitsOf(|items| - 200) else [];
    if |items| > 200 {
      DigitsRead(|items| - 200);
      PlusMark();
    }
  }

  lemma PlusMark()
    ensures U("\U{2026}+") == [0x2026] + U("+")
  {
    assert "\U{2026}+" == "\U{2026}" + "+";
    UnitsOfConcat("\U{2026}", "+");
    assert U("\U{2026}") == [0x2026];
  }

  /** On the sixth level a list, an object or anything unknown is only marked; above it, the unknown says what it is. */
  lemma DeepIsMarked(redactLine: Text -> Text, v: Value, depth: nat)
    requires v.Arr? || v.Obj? || v.Unsupported?
    ensures depth >= 6 ==> Redact(redactLine, v, depth, false) == Str(U("[depth-limit]"))
    ensures depth < 6 && v.Unsupported? ==>
      Redact(redactLine, v, depth, false) == Str(U("[unsupported:") + v.typeOf + U("]"))
  {
    hide U;
  }

  // ---- command lines -------------------------------------------------------------------------------

  /** The keys of command lines, in small letters or capitals. */
  lemma CommandKeys(key: Text)
    ensures IsCommandKey(key) <==>
      InSmall(key) == U("argv") || InSmall(key) == U("cmd") || InSmall(key) == U("command") || InSmall(key) == U("args")
  {
    hide U;
    if KELVIN in key {
      var i :| 0 <= i < |key| && key[i] == KELVIN;
      SmallAt(key, i);
      NoKInside(AsciiLower(key), i);
      NoKInside(InSmall(key), i);
    } else {
      SmallIsLower(key);
    }
  }

  lemma {:induction false} SmallAt(w: Text, i: nat)
    requires i < |w| && w[i] == KELVIN
    ensures InSmall(w)[i] == 0x6B && AsciiLower(w)[i] == KELVIN
  {
    if i > 0 {
      SmallAt(w[1..], i - 1);
    }
  }

  /** None of these words has a `k`. */
  lemma NoKInside(w: Text, i: nat)
    requires i < |w| && (w[i] == 0x6B || w[i] == KELVIN)
    ensures w != U("argv") && w != U("cmd") && w != U("command") && w != U("args")
  {
  }

  lemma {:induction false} SmallIsLower(key: Text)
    requires KELVIN !in key
    ensures AsciiLower(key) == InSmall(key)
  {
    if key != [] {
      SmallIsLower(key[1..]);
      assert AsciiLower(key) == [AsciiLower(key)[0]] + AsciiLower(key[1..]);
    }
  }

  /** What is written for one argument behind the first: `-` is 0x2D and `=` is 0x3D. */
  predicate IsShape(redactLine: Text -> Text, arg: Text, shape: Text) {
    && (arg == [] || arg[0] != 0x2D ==> shape == U("<arg>"))
    && (arg != [] && arg[0] == 0x2D && 0x3D !in arg ==> shape == RedactText(redactLine, arg))
    && forall k :: 0 <= k < |arg| && arg[0] == 0x2D && arg[k] == 0x3D && 0x3D !in arg[..k] ==>
         shape == RedactText(redactLine, arg[..k]) + U("=<value>")
  }

  ghost predicate AreShapes(redactLine: Text -> Text, argv: seq<Text>, shapes: seq<Text>) {
    && |shapes| == |argv|
    && (argv != [] ==> shapes[0] == RedactText(redactLine, argv[0]))
    && forall i :: 0 < i < |argv| ==> IsShape(redactLine, argv[i], shapes[i])
  }

  lemma ShapeIs(redactLine: Text -> Text, arg: Text)
    ensures IsShape(redactLine, arg, ShapeArg(redactLine, arg, false))
  {
    hide RedactText, U;
    var shape := ShapeArg(redactLine, arg, false);
    forall k | 0 <= k < |arg| && arg[0] == 0x2D && arg[k] == 0x3D && 0x3D !in arg[..k]
      ensures shape == RedactText(redactLine, arg[..k]) + U("=<value>")
    {
      forall i | 0 <= i < k ensures arg[i] != 0x3D {
        assert arg[..k][i] == arg[i];
      }
      assert IndexOf(arg, EQUALS) == k;
    }
  }

  /** The program name is kept, a flag and the name of a flag with a value, and nothing else. */
  lemma CommandShape(redactLine: Text -> Text, argv: seq<Text>) returns (shapes: seq<Text>)
    ensures AreShapes(redactLine, argv, shapes) && ShapeArgs(redactLine, argv) == shapes
    ensures ShapeCommand(redactLine, Arr(AsValues(argv))) == Arr(AsValues(shapes))
  {
    hide RedactText, ShapeArg, IsShape;
    shapes := ShapeArgs(redactLine, argv);
    forall i | 0 < i < |argv| ensures IsShape(redactLine, argv[i], shapes[i]) {
      ShapeIs(redactLine, argv[i]);
    }
    if argv != [] {
      FirstShape(redactLine, argv[0]);
    }
    assert Texts(AsValues(argv)) == argv;
  }

  lemma FirstShape(redactLine: Text -> Text, arg: Text)
    ensures ShapeArg(redactLine, arg, true) == RedactText(redactLine, arg)
  {
  }

  // ---- command lines in one text -------------------------------------------------------------------

  /** The white space and line terminators of ECMA-262, which `\s` stands for. */
  const WHITE: set<Unit> := {
    0x9, 0xA, 0xB, 0xC, 0xD, 0x20, 0xA0, 0x1680, 0x2000, 0x2001, 0x2002, 0x2003, 0x2004, 0x2005, 0x2006, 0x2007,
    0x2008, 0x2009, 0x200A, 0x2028, 0x2029, 0x202F, 0x205F, 0x3000, 0xFEFF
  }

  lemma WhiteIsSpace(c: Unit)
    ensures IsSpace(c) <==> c in WHITE
  {
  }

  predicate IsBlank(g: Text) {
    g != [] && forall i :: 0 <= i < |g| ==> g[i] in WHITE
  }

  predicate HasNoBlank(part: Text) {
    forall i :: 0 <= i < |part| ==> part[i] !in WHITE
  }

  /** Parts without white space, and runs of it between them; only the first and the last part may be empty. */
  predicate IsCommandText(parts: seq<Text>, blanks: seq<Text>) {
    && |parts| == |blanks| + 1
    && (forall i :: 0 <= i < |parts| ==> HasNoBlank(parts[i]))
    && (forall i :: 0 < i < |parts| - 1 ==> parts[i] != [])
    && forall i :: 0 <= i < |blanks| ==> IsBlank(blanks[i])
  }

  lemma {:induction false} SplitPart(part: Text, rest: Text, current: Text)
    requires HasNoBlank(part)
    ensures SplitSpace(part + rest, current) == SplitSpace(rest, current + part)
  {
    if part == [] {
      assert part + rest == rest && current + part == current;
    } else {
      WhiteIsSpace(part[0]);
      assert (part + rest)[1..] == part[1..] + rest;
      assert current + [part[0]] + part[1..] == current + part;
      SplitPart(part[1..], rest, current + [part[0]]);
    }
  }

  lemma {:induction false} SkipBlank(g: Text, rest: Text)
    requires forall i :: 0 <= i < |g| ==> g[i] in WHITE
    requires rest != [] ==> rest[0] !in WHITE
    ensures SkipSpace(g + rest) == rest
  {
    if g == [] {
      assert g + rest == rest;
      if rest != [] {
        WhiteIsSpace(rest[0]);
      }
    } else {
      WhiteIsSpace(g[0]);
      assert (g + rest)[1..] == g[1..] + rest;
      SkipBlank(g[1..], rest);
    }
  }

  /** Behind the first part the text goes on with a part that is not blank, or ends. */
  lemma AfterBlank(parts: seq<Text>, blanks: seq<Text>)
    requires IsCommandText(parts, blanks) && blanks != []
    ensures IsCommandText(parts[1..], blanks[1..])
    ensures var rest := Compound(parts[1..], blanks[1..]); rest != [] ==> rest[0] !in WHITE
  {
    hide HasNoBlank, IsBlank;
    assert HasNoBlank(parts[1]);
    if parts[1] != [] {
      NotBlank(parts[1]);
    }
    assert |parts| > 2 ==> parts[1] != [];
  }

  lemma NotBlank(part: Text)
    requires HasNoBlank(part) && part != []
    ensures part[0] !in WHITE
  {
  }

  lemma {:induction false} SplitCommandText(parts: seq<Text>, blanks: seq<Text>)
    requires IsCommandText(parts, blanks)
    ensures SplitSpace(Compound(parts, blanks), []) == parts
    decreases |parts|
  {
    hide SplitSpace, SkipSpace, HasNoBlank, IsBlank, Compound;
    assert HasNoBlank(parts[0]);
    if blanks == [] {
      CompoundOne(parts);
      SplitPart(parts[0], [], []);
      assert parts[0] + [] == parts[0] && [] + parts[0] == parts[0];
      SplitEnd(parts[0]);
    } else {
      AfterBlank(parts, blanks);
      SplitCommandText(parts[1..], blanks[1..]);
      var rest := Compound(parts[1..], blanks[1..]);
      CompoundFirst(parts, blanks);
      SplitPart(parts[0], blanks[0] + rest, []);
      assert [] + parts[0] == parts[0];
      SplitBlank(blanks[0], rest, parts[0]);
    }
  }

  lemma CompoundOne(parts: seq<Text>)
    requires |parts| == 1
    ensures Compound(parts, []) == parts[0]
  {
  }

  lemma CompoundFirst(parts: seq<Text>, gaps: seq<Text>)
    requires |parts| == |gaps| + 1 && gaps != []
    ensures Compound(parts, gaps) == parts[0] + (gaps[0] + Compound(parts[1..], gaps[1..]))
  {
  }

  lemma SplitEnd(current: Text)
    ensures SplitSpace([], current) == [current]
  {
  }

  lemma SplitBlank(g: Text, rest: Text, current: Text)
    requires IsBlank(g) && (rest != [] ==> rest[0] !in WHITE)
    ensures SplitSpace(g + rest, current) == [current] + SplitSpace(rest, [])
  {
    WhiteIsSpace(g[0]);
    SkipBlank(g, rest);
  }

  /** A single space between any two. */
  function Spaces(n: nat): (gaps: seq<Text>)
    ensures |gaps| == n
  {
    seq(n, _ => [0x20])
  }

  lemma {:induction false} JoinIs(parts: seq<Text>)
    requires parts != []
    ensures Join(parts) == Compound(parts, Spaces(|parts| - 1))
  {
    if |parts| > 1 {
      JoinIs(parts[1..]);
      assert Spaces(|parts| - 1)[1..] == Spaces(|parts| - 2);
    }
  }

  /** A command line in one text is cut at its white space, and its shapes are put together with single spaces. */
  lemma CommandTextShape(redactLine: Text -> Text, parts: seq<Text>, blanks: seq<Text>) returns (shapes: seq<Text>)
    requires IsCommandText(parts, blanks)
    ensures AreShapes(redactLine, parts, shapes)
    ensures ShapeCommand(redactLine, Str(Compound(parts, blanks))) == Str(Compound(shapes, Spaces(|blanks|)))
  {
    hide AreShapes, Compound, SplitSpace, IsCommandText, Join;
    assert |parts| == |blanks| + 1 by { TextParts(parts, blanks); }
    SplitCommandText(parts, blanks);
    shapes := CommandShape(redactLine, parts);
    JoinIs(shapes);
  }

  lemma TextParts(parts: seq<Text>, blanks: seq<Text>)
    requires IsCommandText(parts, blanks)
    ensures |parts| == |blanks| + 1
  {
  }
}
