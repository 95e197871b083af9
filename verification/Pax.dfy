/**
 * pax extended header records: "<length> <key>=<value>\n", where the length counts the whole
 * record, its own digits included ("pax Extended Header", pax utility, POSIX.1-2017).
 */
module Pax {
  import opened Bytes
  import opened Utf8
  import opened Digits

  const SPACE: Byte := 32
  const EQUALS: Byte := 61
  const NEWLINE: Byte := 10

  function Body(key: Text, value: Text): (body: Text)
    ensures body != [] && body[0] == SPACE
  {
    [SPACE] + key + [EQUALS] + value + [NEWLINE]
  }

  lemma EncodeBody(key: Text, value: Text)
    ensures Encode(Body(key, value)) == [SPACE] + Field(Encode(key), Encode(value)) + [NEWLINE]
  {
    var field := key + [EQUALS] + value;
    assert Body(key, value) == [SPACE] + field + [NEWLINE];
    EncodeAround(key, EQUALS, value);
    EncodeCons(SPACE, field);
    EncodeSnoc([SPACE] + field, NEWLINE);
  }

  function Field(k: seq<Byte>, v: seq<Byte>): seq<Byte> {
    k + [EQUALS] + v
  }

  /** A length that counts `b` bytes and its own decimal digits. */
  predicate CountsItself(len: nat, b: nat) {
    len == b + |Print(len, 10)|
  }

  /** The least length at or above `n` that counts itself. */
  function ShortestFrom(n: nat, b: nat): (len: nat)
    requires b < n <= b + |Print(n, 10)| && n <= 2 * b + 2
    ensures n <= len <= 2 * b + 2 && CountsItself(len, b)
    ensures forall m: nat :: n <= m < len ==> !CountsItself(m, b)
    decreases 2 * b + 2 - n
  {
    if CountsItself(n, b) then n
    else
      DecimalIsShort(n);
      PrintMonotone(n, n + 1, 10);
      ShortestFrom(n + 1, b)
  }

  /** The least length that counts itself and `b` further bytes. */
  function RecordLength(b: nat): (len: nat)
    requires b > 0
    ensures len <= 2 * b + 2 && CountsItself(len, b)
    ensures forall m: nat :: CountsItself(m, b) ==> len <= m
  {
    ShortestFrom(b + 1, b)
  }

  function Record(key: Text, value: Text): Text {
    EncodeBody(key, value);
    Print(RecordLength(|Encode(Body(key, value))|), 10) + Body(key, value)
  }

  lemma EncodeRecord(key: Text, value: Text)
    ensures var len := RecordLength(|Encode(Body(key, value))|);
      Encode(Record(key, value)) == Print(len, 10) + Encode(Body(key, value)) && |Encode(Record(key, value))| == len
  {
    EncodeBody(key, value);
    EncodeNumbered(RecordLength(|Encode(Body(key, value))|), Body(key, value));
  }

  lemma EncodeNumbered(len: nat, body: Text)
    requires body != [] && body[0] == SPACE
    ensures Encode(Print(len, 10) + body) == Print(len, 10) + Encode(body)
  {
    PrintIsDigits(len, 10);
    EncodeAscii(Print(len, 10));
    assert Encode(Print(len, 10)) == Print(len, 10);
    EncodeConcat(Print(len, 10), body);
  }

  /** Measuring a guess that is not too long gives a guess that is not too long and no shorter. */
  lemma GuessesGrow(len: nat, b: nat)
    requires 0 < b < len <= RecordLength(b) && len <= b + |Print(len, 10)|
    ensures var actual := b + |Print(len, 10)|;
      len <= actual <= RecordLength(b) && actual <= b + |Print(actual, 10)|
  {
    var actual := b + |Print(len, 10)|;
    PrintMonotone(len, RecordLength(b), 10);
    PrintMonotone(len, actual, 10);
  }

  /**
   * The writer's loop: guess a length, print it, measure, and try the measured length next.
   * It stops, and where it stops is the shortest record that states its own length correctly.
   */
  method PaxRecord(key: Text, value: Text) returns (record: Text)
    ensures record == Record(key, value)
  {
    var body := Body(key, value);
    ghost var b := |Encode(body)|;
    assert body[0] == SPACE && b > 0;
    var len := |Encode(body)| + 1;
    while true
      invariant b < len <= RecordLength(b) && len <= b + |Print(len, 10)|
      decreases RecordLength(b) - len
    {
      var candidate := Print(len, 10) + body;
      EncodeNumbered(len, body);
      var actual := |Encode(candidate)|;
      if actual == len {
        assert CountsItself(len, b);
        return candidate;
      }
      GuessesGrow(len, b);
      len := actual;
    }
  }

  /**
   * A length-driven reader of one record: its key, its value and what follows it. A space (32) ends the length,
   * an equals sign (61) the key, a newline (10) the record.
   */
  function ParseRecord(s: seq<Byte>): Option<(seq<Byte>, seq<Byte>, seq<Byte>)> {
    var n := DigitRun(s, 10);
    CutRecord(s, n, ValueOf(s[..n], 10))
  }

  /** A record whose `n` leading digits say that it is `len` bytes long. */
  function CutRecord(s: seq<Byte>, n: nat, len: int): Option<(seq<Byte>, seq<Byte>, seq<Byte>)> {
    if n == 0 || len <= n as int + 1 || len > |s| || s[n] != 32 || s[len - 1] != 10 then None
    else SplitField(s[n + 1..len - 1], s[len..])
  }

  function IndexOf(s: seq<Byte>, c: Byte): (i: nat)
    ensures i <= |s|
  {
    if s == [] || s[0] == c then 0 else IndexOf(s[1..], c) + 1
  }

  lemma {:induction false} IndexOfFirst(k: seq<Byte>, c: Byte, v: seq<Byte>)
    ensures IndexOf(k + [c] + v, c) == |k| <==> c !in k
    ensures IndexOf(k + [c] + v, c) <= |k|
  {
    var s := k + [c] + v;
    if k != [] {
      assert s[0] == k[0] && s[1..] == k[1..] + [c] + v;
      IndexOfFirst(k[1..], c, v);
      assert k == [k[0]] + k[1..];
    }
  }

  /** A field "key=value" split at its first '='. */
  function SplitField(field: seq<Byte>, rest: seq<Byte>): Option<(seq<Byte>, seq<Byte>, seq<Byte>)> {
    var eq := IndexOf(field, 61);
    if eq == |field| then None else Some((field[..eq], field[eq + 1..], rest))
  }

  /** Reading one record whose layout is known. */
  lemma ParseOfLayout(s: seq<Byte>, ds: seq<Byte>, field: seq<Byte>, rest: seq<Byte>)
    requires ds != [] && AllDigits(ds, 10) && ValueOf(ds, 10) == |ds| + |field| + 2
    requires s == ds + ([SPACE] + field + [NEWLINE]) + rest
    ensures ParseRecord(s) == SplitField(field, rest)
  {
    hide SplitField, CutRecord, DigitRun, ValueOf, AllDigits;
    var mid := [SPACE] + field + [NEWLINE];
    assert s == ds + (mid + rest);
    DigitRunStops(ds, mid + rest, 10);
    assert s[..|ds|] == ds;
    LayoutSlices(s, ds, field, rest);
    CutKnown(s, |ds|, |ds| + |field| + 2, field, rest);
  }

  lemma LayoutSlices(s: seq<Byte>, ds: seq<Byte>, field: seq<Byte>, rest: seq<Byte>)
    requires s == ds + ([SPACE] + field + [NEWLINE]) + rest
    ensures var n, len := |ds|, |ds| + |field| + 2;
      |s| == len + |rest| && s[n] == SPACE && s[len - 1] == NEWLINE && s[n + 1..len - 1] == field && s[len..] == rest
  {
  }

  lemma CutKnown(s: seq<Byte>, n: nat, len: nat, field: seq<Byte>, rest: seq<Byte>)
    requires 0 < n && n + 1 < len <= |s| && s[n] == SPACE && s[len - 1] == NEWLINE
    requires s[n + 1..len - 1] == field && s[len..] == rest
    ensures CutRecord(s, n, len) == SplitField(field, rest)
  {
  }

  /** The first '=' of "key=value" ends the key exactly when the key holds none. */
  lemma SplitOfField(k: seq<Byte>, v: seq<Byte>, rest: seq<Byte>)
    ensures SplitField(Field(k, v), rest) == Some((k, v, rest)) <==> EQUALS !in k
  {
    var field := Field(k, v);
    IndexOfFirst(k, EQUALS, v);
    assert field[..|k|] == k && field[|k| + 1..] == v;
    assert |field[..IndexOf(field, EQUALS)]| == IndexOf(field, EQUALS);
  }

  /** The bytes of a record: its own length in decimal, then the field it carries. */
  lemma RecordLayout(key: Text, value: Text) returns (ds: seq<Byte>, field: seq<Byte>)
    ensures field == Field(Encode(key), Encode(value))
    ensures ds != [] && AllDigits(ds, 10) && ValueOf(ds, 10) == |ds| + |field| + 2
    ensures Encode(Record(key, value)) == ds + ([SPACE] + field + [NEWLINE])
  {
    EncodeRecord(key, value);
    EncodeBody(key, value);
    var len := RecordLength(|Encode(Body(key, value))|);
    ds, field := Print(len, 10), Field(Encode(key), Encode(value));
    ValueOfPrint(len, 10);
    PrintIsDigits(len, 10);
  }

  /** A written record reads back as its key, its value and the untouched remainder. */
  lemma ParseOfRecord(key: Text, value: Text, rest: seq<Byte>)
    ensures ParseRecord(Encode(Record(key, value)) + rest) == Some((Encode(key), Encode(value), rest))
       <==> EQUALS !in key
  {
    var ds, field := RecordLayout(key, value);
    ParseOfLayout(Encode(Record(key, value)) + rest, ds, field, rest);
    EncodeKeepsAscii(key, EQUALS);
    SplitOfField(Encode(key), Encode(value), rest);
  }
}
