/**
 * Redaction of audit details: values under sensitive keys are replaced, command lines keep only
 * their shape, and everything else is redacted as text, cut in length, width and depth.
 */
module Redaction {
  import Utf8

  type Unit = Utf8.Unit
  /** Text as UTF-16 units. */
  type Text = Utf8.Text

  /** The units of text without surrogate pairs. */
  function U(s: string): (t: Text)
    ensures |t| == |s|
  {
    seq(|s|, i requires 0 <= i < |s| => if s[i] as int < 0x1_0000 then s[i] as int else 0xFFFD)
  }

  datatype Value = Undefined | Null | Str(text: Text) | Num(number: int) | Bool(flag: bool) | Date(iso: Text)
                 | Arr(items: seq<Value>) | Obj(fields: seq<Field>) | Unsupported(typeOf: Text)

  datatype Field = Field(key: Text, value: Value)

  const REDACTED: Text := U("[redacted]")
  const DEPTH_LIMIT: Text := U("[depth-limit]")
  const SPACE: Unit := 0x20
  const DASH: Unit := 0x2D
  const EQUALS: Unit := 0x3D
  const MAX_DEPTH: nat := 6
  const MAX_STRING: nat := 4000
  const MAX_ARRAY: nat := 200

  const SENSITIVE_WORDS: set<Text> := {
    U("env"), U("envs"), U("environ"), U("environment"), U("token"), U("tokens"),
    U("secret"), U("secrets"), U("password"), U("passwd"),
    U("passphrase"), U("passcode"), U("credential"), U("credentials"), U("authorization"),
    U("auth"), U("apikey"), U("privatekey"),
    U("signingkey"), U("cookie"), U("cookies")
  }

  // ---- keys --------------------------------------------------------------------------------------

  predicate IsWordChar(c: Unit) {
    0x61 <= c <= 0x7A || 0x30 <= c <= 0x39
  }

  predicate IsUpper(c: Unit) {
    0x41 <= c <= 0x5A
  }

  /**
   * Lower case of one unit. Besides A to Z, the Kelvin sign and the dotted capital I contain an ASCII
   * letter in lower case.
   */
  function Lower(c: Unit): Text {
    if IsUpper(c) then [c + 32]
    else if c == 0x212A then [0x6B]
    else if c == 0x130 then [0x69, 0x307]
    else [c]
  }

  /** A space between a lower-case letter or digit and the capital that follows it, and all in lower case. */
  function Spaced(key: Text): Text {
    if key == [] then []
    else
      Lower(key[0])
      + (if |key| > 1 && IsWordChar(key[0]) && IsUpper(key[1]) then [SPACE] else [])
      + Spaced(key[1..])
  }

  /** The runs of letters and digits of a text. */
  function WordsOf(text: Text, current: Text): seq<Text> {
    if text == [] then if current == [] then [] else [current]
    else if IsWordChar(text[0]) then WordsOf(text[1..], current + [text[0]])
    else (if current == [] then [] else [current]) + WordsOf(text[1..], [])
  }

  function Words(key: Text): seq<Text> {
    WordsOf(Spaced(key), [])
  }

  /** One word, or two neighbours together, say that the value is a secret. */
  predicate Sensitive(key: Text) {
    var words := Words(key);
    || (exists i :: 0 <= i < |words| && words[i] in SENSITIVE_WORDS)
    || (exists i :: 0 <= i && i + 1 < |words| && words[i] + words[i + 1] in SENSITIVE_WORDS)
  }

  method IsSensitiveKey(key: Text) returns (r: bool)
    ensures r == Sensitive(key)
  {
    var words := Words(key);
    for i := 0 to |words|
      invariant forall k :: 0 <= k < i ==> words[k] !in SENSITIVE_WORDS
    {
      if words[i] in SENSITIVE_WORDS {
        return true;
      }
    }
    var i := 0;
    while i + 1 < |words|
      invariant 0 <= i && (words == [] || i < |words|)
      invariant forall k :: 0 <= k < i && k + 1 < |words| ==> words[k] + words[k + 1] !in SENSITIVE_WORDS
    {
      if words[i] + words[i + 1] in SENSITIVE_WORDS {
        return true;
      }
      i := i + 1;
    }
    r := false;
  }

  function AsciiLower(key: Text): Text {
    seq(|key|, i requires 0 <= i < |key| => if IsUpper(key[i]) then key[i] + 32 else key[i])
  }

  predicate IsCommandKey(key: Text) {
    AsciiLower(key) in {U("argv"), U("cmd"), U("command"), U("args")}
  }

  // ---- text and command lines ----------------------------------------------------------------------

  function RedactText(redactLine: Text -> Text, text: Text): Text {
    var r := redactLine(text);
    if |r| > MAX_STRING then r[..MAX_STRING] + U("\U{2026}[truncated]") else r
  }

  function IndexOf(text: Text, c: Unit): (i: nat)
    ensures i <= |text| && (i < |text| ==> text[i] == c) && forall k :: 0 <= k < i ==> text[k] != c
  {
    if text == [] || text[0] == c then 0 else 1 + IndexOf(text[1..], c)
  }

  predicate IsFlag(arg: Text) {
    arg != [] && arg[0] == DASH
  }

  /** What is kept of one argument: the program name, a flag, the name of a flag with a value. */
  function ShapeArg(redactLine: Text -> Text, arg: Text, first: bool): Text {
    if first then RedactText(redactLine, arg)
    else if !IsFlag(arg) then U("<arg>")
    else
      var eq := IndexOf(arg, EQUALS);
      if eq == |arg| then RedactText(redactLine, arg) else RedactText(redactLine, arg[..eq]) + U("=<value>")
  }

  function ShapeArgs(redactLine: Text -> Text, argv: seq<Text>): (r: seq<Text>)
    ensures |r| == |argv|
  {
    seq(|argv|, i requires 0 <= i < |argv| => ShapeArg(redactLine, argv[i], i == 0))
  }

  /** White space as the regular expression class of the language knows it. */
  predicate IsSpace(c: Unit) {
    || 0x9 <= c <= 0xD || c == SPACE || c == 0xA0 || c == 0x1680 || 0x2000 <= c <= 0x200A
    || c == 0x2028 || c == 0x2029 || c == 0x202F || c == 0x205F || c == 0x3000 || c == 0xFEFF
  }

  function SkipSpace(text: Text): (r: Text)
    ensures |r| <= |text|
  {
    if text != [] && IsSpace(text[0]) then SkipSpace(text[1..]) else text
  }

  /** Cut at every run of white space; there is always a first part, if only an empty one. */
  function SplitSpace(text: Text, current: Text): seq<Text>
    decreases |text|
  {
    if text == [] then [current]
    else if IsSpace(text[0]) then [current] + SplitSpace(SkipSpace(text), [])
    else SplitSpace(text[1..], current + [text[0]])
  }

  function Join(parts: seq<Text>): Text {
    if parts == [] then [] else if |parts| == 1 then parts[0] else parts[0] + [SPACE] + Join(parts[1..])
  }

  predicate AllText(items: seq<Value>) {
    forall i :: 0 <= i < |items| ==> items[i].Str?
  }

  function Texts(items: seq<Value>): (r: seq<Text>)
    requires AllText(items)
    ensures |r| == |items|
  {
    seq(|items|, i requires 0 <= i < |items| => items[i].text)
  }

  function AsValues(texts: seq<Text>): (r: seq<Value>)
    ensures |r| == |texts|
  {
    seq(|texts|, i requires 0 <= i < |texts| => Str(texts[i]))
  }

  // ---- values --------------------------------------------------------------------------------------

  function Least(a: nat, b: nat): nat {
    if a <= b then a else b
  }

  function DigitsOf(n: nat): Text {
    if n < 10 then [0x30 + n] else DigitsOf(n / 10) + [0x30 + n % 10]
  }

  /** What is written in place of a value. */
  function Redact(redactLine: Text -> Text, v: Value, depth: nat, keyIsSensitive: bool): Value
    decreases v, 0
  {
    if keyIsSensitive then Str(REDACTED)
    else
      match v
      case Undefined => v
      case Null => v
      case Str(text) => Str(RedactText(redactLine, text))
      case Num(_) => v
      case Bool(_) => v
      case Date(iso) => Str(iso)
      case Arr(items) =>
        if depth >= MAX_DEPTH then Str(DEPTH_LIMIT)
        else
          Arr(seq(Least(|items|, MAX_ARRAY),
                  i requires 0 <= i < |items| => Redact(redactLine, items[i], depth + 1, false))
              + if |items| > MAX_ARRAY then [Str(U("\U{2026}+") + DigitsOf(|items| - MAX_ARRAY) + U(" more"))] else [])
      case Obj(fields) =>
        if depth >= MAX_DEPTH then Str(DEPTH_LIMIT)
        else Obj(seq(|fields|,
                     i requires 0 <= i < |fields| => Field(fields[i].key, RedactField(redactLine, fields[i], depth))))
      case Unsupported(t) =>
        if depth >= MAX_DEPTH then Str(DEPTH_LIMIT) else Str(U("[unsupported:") + t + U("]"))
  }

  function RedactField(redactLine: Text -> Text, f: Field, depth: nat): Value
    decreases f, 0
  {
    if IsCommandKey(f.key) && !Sensitive(f.key) then ShapeCommand(redactLine, f.value)
    else Redact(redactLine, f.value, depth + 1, Sensitive(f.key))
  }

  /** The shape of a command line; a value that is none is redacted as if it stood at the top. */
  function ShapeCommand(redactLine: Text -> Text, v: Value): Value
    decreases v, 1
  {
    if v.Arr? && AllText(v.items) then Arr(AsValues(ShapeArgs(redactLine, Texts(v.items))))
    else if v.Str? then Str(Join(ShapeArgs(redactLine, SplitSpace(v.text, []))))
    else Redact(redactLine, v, 0, false)
  }

  /** The same, as it is done: a new object is filled key by key. */
  method RedactValue(redactLine: Text -> Text, v: Value, depth: nat, keyIsSensitive: bool) returns (r: Value)
    ensures r == Redact(redactLine, v, depth, keyIsSensitive)
    decreases v, 0
  {
    hide RedactText, DigitsOf, ShapeCommand, Sensitive;
    if keyIsSensitive {
      return Str(REDACTED);
    }
    match v {
      case Undefined => r := v;
      case Null => r := v;
      case Str(text) => r := Str(RedactText(redactLine, text));
      case Num(_) => r := v;
      case Bool(_) => r := v;
      case Date(iso) => r := Str(iso);
      case Arr(items) =>
        if depth >= MAX_DEPTH {
          return Str(DEPTH_LIMIT);
        }
        var head: seq<Value> := [];
        for i := 0 to Least(|items|, MAX_ARRAY)
          invariant |head| == i
          invariant forall k :: 0 <= k < i ==> head[k] == Redact(redactLine, items[k], depth + 1, false)
        {
          var item := RedactValue(redactLine, items[i], depth + 1, false);
          head := head + [item];
        }
        if |items| > MAX_ARRAY {
          head := head + [Str(U("\U{2026}+") + DigitsOf(|items| - MAX_ARRAY) + U(" more"))];
        }
        r := Arr(head);
      case Obj(fields) =>
        if depth >= MAX_DEPTH {
          return Str(DEPTH_LIMIT);
        }
        var out: seq<Field> := [];
        for i := 0 to |fields|
          invariant |out| == i
          invariant forall k :: 0 <= k < i ==> out[k] == Field(fields[k].key, RedactField(redactLine, fields[k], depth))
        {
          var k, x := fields[i].key, fields[i].value;
          var sensitive := IsSensitiveKey(k);
          if IsCommandKey(k) && !sensitive {
            var shape := ShapeCommandValue(redactLine, x);
            out := out + [Field(k, shape)];
            continue;
          }
          var y := RedactValue(redactLine, x, depth + 1, sensitive);
          out := out + [Field(k, y)];
        }
        r := Obj(out);
      case Unsupported(t) =>
        r := if depth >= MAX_DEPTH then Str(DEPTH_LIMIT) else Str(U("[unsupported:") + t + U("]"));
    }
  }

  method ShapeCommandValue(redactLine: Text -> Text, v: Value) returns (r: Value)
    ensures r == ShapeCommand(redactLine, v)
    decreases v, 1
  {
    if v.Arr? && AllText(v.items) {
      return Arr(AsValues(ShapeArgs(redactLine, Texts(v.items))));
    }
    if v.Str? {
      return Str(Join(ShapeArgs(redactLine, SplitSpace(v.text, []))));
    }
    r := RedactValue(redactLine, v, 0, false);
  }

  // ---- what cannot be told from the output -----------------------------------------------------------

  /** Two arguments that differ only in what is never written. */
  predicate SameShape(a: Text, b: Text, first: bool) {
    if first then a == b
    else if IsFlag(a) && IsFlag(b) then
      a[..IndexOf(a, EQUALS)] == b[..IndexOf(b, EQUALS)] && (EQUALS in a <==> EQUALS in b)
    else !IsFlag(a) && !IsFlag(b)
  }

  predicate SameShapes(a: seq<Text>, b: seq<Text>) {
    |a| == |b| && forall i :: 0 <= i < |a| ==> SameShape(a[i], b[i], i == 0)
  }

  predicate IsCommandLine(v: Value) {
    v.Str? || (v.Arr? && AllText(v.items))
  }

  /** Two values that differ only below sensitive keys and in the arguments of command lines. */
  predicate Alike(a: Value, b: Value)
    decreases a, 0
  {
    match a
    case Arr(items) => b.Arr? && |items| == |b.items| && forall i :: 0 <= i < |items| ==> Alike(items[i], b.items[i])
    case Obj(fields) =>
      b.Obj? && |fields| == |b.fields| && forall i :: 0 <= i < |fields| ==> AlikeField(fields[i], b.fields[i])
    case _ => a == b
  }

  predicate AlikeField(a: Field, b: Field)
    decreases a, 1
  {
    && a.key == b.key
    && (Sensitive(a.key)
        || (if IsCommandKey(a.key) then AlikeCommand(a.value, b.value) else Alike(a.value, b.value)))
  }

  predicate AlikeCommand(a: Value, b: Value)
    decreases a, 1
  {
    if a.Arr? && AllText(a.items) then b.Arr? && AllText(b.items) && SameShapes(Texts(a.items), Texts(b.items))
    else if a.Str? then b.Str? && SameShapes(SplitSpace(a.text, []), SplitSpace(b.text, []))
    else !IsCommandLine(b) && Alike(a, b)
  }

  lemma SameArg(redactLine: Text -> Text, a: Text, b: Text, first: bool)
    requires SameShape(a, b, first)
    ensures ShapeArg(redactLine, a, first) == ShapeArg(redactLine, b, first)
  {
    if !first && IsFlag(a) {
      if EQUALS !in a {
        assert IndexOf(a, EQUALS) == |a| && IndexOf(b, EQUALS) == |b|;
        assert a[..|a|] == a && b[..|b|] == b;
      } else {
        assert IndexOf(a, EQUALS) < |a| && IndexOf(b, EQUALS) < |b|;
      }
    }
  }

  lemma SameArgs(redactLine: Text -> Text, a: seq<Text>, b: seq<Text>)
    requires SameShapes(a, b)
    ensures ShapeArgs(redactLine, a) == ShapeArgs(redactLine, b)
  {
    forall i | 0 <= i < |a| ensures ShapeArgs(redactLine, a)[i] == ShapeArgs(redactLine, b)[i] {
      SameArg(redactLine, a[i], b[i], i == 0);
    }
  }

  /** Such values are redacted to the same output: nothing about the difference gets through. */
  lemma {:induction false} NonInterference(redactLine: Text -> Text, a: Value, b: Value,
                                           depth: nat, keyIsSensitive: bool)
    requires Alike(a, b)
    ensures Redact(redactLine, a, depth, keyIsSensitive) == Redact(redactLine, b, depth, keyIsSensitive)
    decreases a, 0
  {
    if !keyIsSensitive && depth < MAX_DEPTH {
      if a.Arr? {
        forall i | 0 <= i < |a.items|
          ensures Redact(redactLine, a.items[i], depth + 1, false) == Redact(redactLine, b.items[i], depth + 1, false)
        {
          NonInterference(redactLine, a.items[i], b.items[i], depth + 1, false);
        }
      } else if a.Obj? {
        forall i | 0 <= i < |a.fields|
          ensures RedactField(redactLine, a.fields[i], depth) == RedactField(redactLine, b.fields[i], depth)
        {
          FieldNonInterference(redactLine, a.fields[i], b.fields[i], depth);
        }
      }
    }
  }

  lemma {:induction false} FieldNonInterference(redactLine: Text -> Text, a: Field, b: Field, depth: nat)
    requires AlikeField(a, b)
    ensures RedactField(redactLine, a, depth) == RedactField(redactLine, b, depth)
    decreases a, 0
  {
    if !Sensitive(a.key) {
      if IsCommandKey(a.key) {
        CommandNonInterference(redactLine, a.value, b.value);
      } else {
        NonInterference(redactLine, a.value, b.value, depth + 1, false);
      }
    }
  }

  lemma {:induction false} CommandNonInterference(redactLine: Text -> Text, a: Value, b: Value)
    requires AlikeCommand(a, b)
    ensures ShapeCommand(redactLine, a) == ShapeCommand(redactLine, b)
    decreases a, 1
  {
    if a.Arr? && AllText(a.items) {
      SameArgs(redactLine, Texts(a.items), Texts(b.items));
    } else if a.Str? {
      SameArgs(redactLine, SplitSpace(a.text, []), SplitSpace(b.text, []));
    } else {
      NonInterference(redactLine, a, b, 0, false);
    }
  }

  // ---- what the output looks like ----------------------------------------------------------------------

  /** No value stands under a sensitive key, at any depth. */
  predicate Covered(v: Value) {
    match v
    case Arr(items) => forall i :: 0 <= i < |items| ==> Covered(items[i])
    case Obj(fields) =>
      forall i :: 0 <= i < |fields| ==>
        (Sensitive(fields[i].key) ==> fields[i].value == Str(REDACTED)) && Covered(fields[i].value)
    case _ => true
  }

  lemma {:induction false} OutputIsCovered(redactLine: Text -> Text, v: Value, depth: nat, keyIsSensitive: bool)
    ensures Covered(Redact(redactLine, v, depth, keyIsSensitive))
    decreases v, 0
  {
    hide Sensitive, IsCommandKey, RedactText, DigitsOf, ShapeArgs, SplitSpace;
    if !keyIsSensitive && depth < MAX_DEPTH {
      if v.Arr? {
        forall i | 0 <= i < |v.items| ensures Covered(Redact(redactLine, v.items[i], depth + 1, false)) {
          OutputIsCovered(redactLine, v.items[i], depth + 1, false);
        }
      } else if v.Obj? {
        forall i | 0 <= i < |v.fields|
          ensures var x := RedactField(redactLine, v.fields[i], depth);
            Covered(x) && (Sensitive(v.fields[i].key) ==> x == Str(REDACTED))
        {
          var f := v.fields[i];
          if IsCommandKey(f.key) && !Sensitive(f.key) {
            if !IsCommandLine(f.value) {
              OutputIsCovered(redactLine, f.value, 0, false);
            }
          } else {
            OutputIsCovered(redactLine, f.value, depth + 1, Sensitive(f.key));
          }
        }
      }
    }
  }

  /** The depth of a value; scalars have none. */
  function Depth(v: Value): nat {
    match v
    case Arr(items) => 1 + Deepest(items)
    case Obj(fields) => 1 + DeepestField(fields)
    case _ => 0
  }

  function Deepest(items: seq<Value>): nat {
    if items == [] then 0 else var a, b := Depth(items[0]), Deepest(items[1..]); if a >= b then a else b
  }

  function DeepestField(fields: seq<Field>): nat {
    if fields == [] then 0 else var a, b := Depth(fields[0].value), DeepestField(fields[1..]); if a >= b then a else b
  }

  lemma {:induction false} DeepestIs(items: seq<Value>)
    ensures forall i :: 0 <= i < |items| ==> Depth(items[i]) <= Deepest(items)
    ensures items != [] ==> exists i :: 0 <= i < |items| && Depth(items[i]) == Deepest(items)
  {
    if items != [] {
      DeepestIs(items[1..]);
      if Deepest(items) == Depth(items[0]) {
        assert Depth(items[0]) == Deepest(items);
      } else {
        var i :| 0 <= i < |items[1..]| && Depth(items[1..][i]) == Deepest(items[1..]);
        assert Depth(items[i + 1]) == Deepest(items);
      }
    }
  }

  lemma {:induction false} DeepestFieldIs(fields: seq<Field>)
    ensures forall i :: 0 <= i < |fields| ==> Depth(fields[i].value) <= DeepestField(fields)
    ensures fields != [] ==> exists i :: 0 <= i < |fields| && Depth(fields[i].value) == DeepestField(fields)
  {
    if fields != [] {
      DeepestFieldIs(fields[1..]);
      if DeepestField(fields) == Depth(fields[0].value) {
        assert Depth(fields[0].value) == DeepestField(fields);
      } else {
        var i :| 0 <= i < |fields[1..]| && Depth(fields[1..][i].value) == DeepestField(fields[1..]);
        assert Depth(fields[i + 1].value) == DeepestField(fields);
      }
    }
  }

  lemma {:induction false} DeepestWithin(items: seq<Value>, d: nat)
    requires forall i :: 0 <= i < |items| ==> Depth(items[i]) <= d
    ensures Deepest(items) <= d
  {
    if items != [] {
      DeepestWithin(items[1..], d);
    }
  }

  lemma {:induction false} DeepestFieldWithin(fields: seq<Field>, d: nat)
    requires forall i :: 0 <= i < |fields| ==> Depth(fields[i].value) <= d
    ensures DeepestField(fields) <= d
  {
    if fields != [] {
      DeepestFieldWithin(fields[1..], d);
    }
  }

  /**
   * How many times redaction starts over at the top on the way down: a command key with a list or object
   * that is no command line.
   */
  function CommandNesting(v: Value): nat
    decreases v
  {
    match v
    case Arr(items) => MostNested(items)
    case Obj(fields) => MostNestedField(fields)
    case _ => 0
  }

  function MostNested(items: seq<Value>): nat {
    if items == [] then 0 else var a, b := CommandNesting(items[0]), MostNested(items[1..]); if a >= b then a else b
  }

  function MostNestedField(fields: seq<Field>): nat {
    if fields == [] then 0
    else
      var f := fields[0];
      var a, b := FieldNesting(f.key, f.value, CommandNesting(f.value)), MostNestedField(fields[1..]);
      if a >= b then a else b
  }

  /** What a field adds to the nesting `inside` its value. Under a sensitive key nothing is left of it. */
  function FieldNesting(key: Text, v: Value, inside: nat): nat {
    if Sensitive(key) then 0
    else if !IsCommandKey(key) then inside
    else if IsCommandLine(v) || (!v.Arr? && !v.Obj?) then 0
    else 1 + inside
  }

  lemma {:induction false} MostNestedIs(items: seq<Value>, i: nat)
    requires i < |items|
    ensures CommandNesting(items[i]) <= MostNested(items)
  {
    if i > 0 {
      MostNestedIs(items[1..], i - 1);
    }
  }

  lemma {:induction false} MostNestedFieldIs(fields: seq<Field>, i: nat)
    requires i < |fields|
    ensures var f := fields[i]; FieldNesting(f.key, f.value, CommandNesting(f.value)) <= MostNestedField(fields)
  {
    hide FieldNesting;
    if i > 0 {
      MostNestedFieldIs(fields[1..], i - 1);
    }
  }

  /** The deepest output at `depth`, for so many fresh starts. A command line may stand one level below the limit. */
  function DepthBound(nesting: nat, depth: nat): int {
    6 * (nesting + 1) + 1 - depth
  }

  /** Every output keeps to that bound; with no fresh start it is the limit and one level more. */
  lemma {:induction false} DepthIsLimited(redactLine: Text -> Text, v: Value, depth: nat, keyIsSensitive: bool)
    requires depth <= MAX_DEPTH
    ensures Depth(Redact(redactLine, v, depth, keyIsSensitive)) <= DepthBound(CommandNesting(v), depth)
    decreases v, 0
  {
    hide Sensitive, IsCommandKey, FieldNesting;
    if !keyIsSensitive && depth < MAX_DEPTH {
      var most := DepthBound(CommandNesting(v), depth) - 1;
      if v.Arr? {
        forall i | 0 <= i < |v.items| ensures Depth(Redact(redactLine, v.items[i], depth + 1, false)) <= most {
          DepthIsLimited(redactLine, v.items[i], depth + 1, false);
          MostNestedIs(v.items, i);
        }
        DeepestWithin(Redact(redactLine, v, depth, false).items, most);
      } else if v.Obj? {
        forall i | 0 <= i < |v.fields| ensures Depth(RedactField(redactLine, v.fields[i], depth)) <= most {
          FieldDepth(redactLine, v.fields[i], depth);
          MostNestedFieldIs(v.fields, i);
        }
        DeepestFieldWithin(Redact(redactLine, v, depth, false).fields, most);
      }
    }
  }

  lemma {:induction false} FieldDepth(redactLine: Text -> Text, f: Field, depth: nat)
    requires depth < MAX_DEPTH
    ensures Depth(RedactField(redactLine, f, depth)) <=
      DepthBound(FieldNesting(f.key, f.value, CommandNesting(f.value)), depth + 1)
    decreases f, 0
  {
    hide Sensitive, IsCommandKey;
    if IsCommandKey(f.key) && !Sensitive(f.key) {
      if IsCommandLine(f.value) || (!f.value.Arr? && !f.value.Obj?) {
        FlatShape(redactLine, f.value);
      } else {
        DepthIsLimited(redactLine, f.value, 0, false);
      }
    } else {
      DepthIsLimited(redactLine, f.value, depth + 1, Sensitive(f.key));
    }
  }

  lemma FlatShape(redactLine: Text -> Text, v: Value)
    requires IsCommandLine(v) || (!v.Arr? && !v.Obj?)
    ensures Depth(ShapeCommand(redactLine, v)) <= 1
  {
    if v.Arr? {
      DeepestWithin(ShapeCommand(redactLine, v).items, 0);
    }
  }

  /**
   * Objects down to the limit, then a command key, and the same again under it, `n` times; at last an
   * empty command line.
   */
  function Deep(n: nat, level: nat): Value
    requires level < MAX_DEPTH
    decreases n, MAX_DEPTH - level
  {
    if level + 1 < MAX_DEPTH then Obj([Field(U("a"), Deep(n, level + 1))])
    else Obj([Field(U("argv"), if n == 0 then Arr([]) else Deep(n - 1, 0))])
  }

  /** The bound is attained for any number of fresh starts, so there is no limit to the depth of the output. */
  lemma {:induction false} DepthIsAttained(redactLine: Text -> Text, n: nat, level: nat)
    requires level < MAX_DEPTH
    ensures Redact(redactLine, Deep(n, level), level, false) == Deep(n, level)
    ensures CommandNesting(Deep(n, level)) == n && Depth(Deep(n, level)) == DepthBound(n, level)
    decreases n, MAX_DEPTH - level
  {
    hide Sensitive, IsCommandKey;
    PlainKeys();
    if level + 1 < MAX_DEPTH {
      DepthIsAttained(redactLine, n, level + 1);
      OneField(redactLine, Field(U("a"), Deep(n, level + 1)), level);
    } else if n > 0 {
      DepthIsAttained(redactLine, n - 1, 0);
      OneField(redactLine, Field(U("argv"), Deep(n - 1, 0)), level);
    } else {
      EmptyCommandLine(redactLine);
      OneField(redactLine, Field(U("argv"), Arr([])), level);
    }
  }

  lemma EmptyCommandLine(redactLine: Text -> Text)
    ensures ShapeCommand(redactLine, Arr([])) == Arr([]) && Depth(Arr([])) == 1
  {
    assert AsValues(ShapeArgs(redactLine, Texts([]))) == [];
  }

  lemma OneField(redactLine: Text -> Text, f: Field, depth: nat)
    requires depth < MAX_DEPTH && RedactField(redactLine, f, depth) == f.value
    ensures Redact(redactLine, Obj([f]), depth, false) == Obj([f])
    ensures Depth(Obj([f])) == Depth(f.value) + 1
    ensures CommandNesting(Obj([f])) == FieldNesting(f.key, f.value, CommandNesting(f.value))
  {
    hide Sensitive, IsCommandKey, FieldNesting, RedactField, Depth, CommandNesting;
    assert [f][1..] == [];
    assert Redact(redactLine, Obj([f]), depth, false).fields == [f];
    OneDeepest(f);
  }

  lemma OneDeepest(f: Field)
    ensures Depth(Obj([f])) == Depth(f.value) + 1
    ensures CommandNesting(Obj([f])) == FieldNesting(f.key, f.value, CommandNesting(f.value))
  {
    hide FieldNesting;
    assert [f][1..] == [] && DeepestField([f]) == Depth(f.value);
    assert MostNestedField([f]) == FieldNesting(f.key, f.value, CommandNesting(f.value));
  }

  predicate AllWordChars(key: Text) {
    forall i :: 0 <= i < |key| ==> IsWordChar(key[i])
  }

  lemma {:induction false} SpacedWord(key: Text)
    requires AllWordChars(key)
    ensures Spaced(key) == key
  {
    if key != [] {
      SpacedWord(key[1..]);
    }
  }

  lemma {:induction false} WordsOfWord(key: Text, current: Text)
    requires AllWordChars(key)
    ensures WordsOf(key, current) == if current + key == [] then [] else [current + key]
  {
    if key != [] {
      WordsOfWord(key[1..], current + [key[0]]);
      assert current + [key[0]] + key[1..] == current + key;
    } else {
      assert current + key == current;
    }
  }

  /** A key that is one word in lower case is sensitive exactly when the word is listed. */
  lemma OneWordKey(key: Text)
    requires AllWordChars(key) && key != []
    ensures Sensitive(key) <==> key in SENSITIVE_WORDS
  {
    hide Spaced, WordsOf;
    SpacedWord(key);
    WordsOfWord(key, []);
    assert [] + key == key;
    assert Words(key) == [key] && Words(key)[0] == key;
  }

  lemma PlainKeys()
    ensures IsCommandKey(U("argv")) && !Sensitive(U("argv"))
    ensures !IsCommandKey(U("a")) && !Sensitive(U("a"))
  {
    hide Sensitive;
    OneWordKey(U("argv"));
    OneWordKey(U("a"));
    assert AsciiLower(U("argv")) == U("argv") && AsciiLower(U("a")) == U("a");
    assert U("argv")[1] == 0x72 && U("auth")[1] == 0x75 && U("envs")[1] == 0x6E;
  }
}
