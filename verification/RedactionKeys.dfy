/**
 * Which keys are sensitive, said of the words they are made of: words run together in camel case, in
 * capitals, or set apart by any other characters.
 */
module RedactionKeys {
  import opened Redaction

  predicate Small(c: Unit) { 0x61 <= c <= 0x7A }
  predicate Digit(c: Unit) { 0x30 <= c <= 0x39 }
  predicate Capital(c: Unit) { 0x41 <= c <= 0x5A }

  /** The Kelvin sign is a capital k, but not for the rule of camel case. */
  const KELVIN: Unit := 0x212A

  predicate Letter(c: Unit) { Small(c) || Digit(c) || Capital(c) || c == KELVIN }

  /** Letters and digits, with no capital right behind a small letter or a digit: `token`, `Token`, `API`, `v2`. */
  predicate IsWord(w: Text) {
    && w != []
    && (forall i :: 0 <= i < |w| ==> Letter(w[i]))
    && forall i :: 0 <= i < |w| - 1 ==> !((Small(w[i]) || Digit(w[i])) && Capital(w[i + 1]))
  }

  /** Anything else, but for the capital i with a dot. */
  predicate IsGap(g: Text) {
    g != [] && forall i :: 0 <= i < |g| ==> !Letter(g[i]) && g[i] != 0x130
  }

  /** Two words meet at a gap, or at a capital behind a small letter or a digit. */
  predicate Meet(left: Text, gap: Text, right: Text) {
    && left != [] && right != []
    && if gap == [] then (Small(left[|left| - 1]) || Digit(left[|left| - 1])) && Capital(right[0]) else IsGap(gap)
  }

  /** Words and the gaps between them: one gap fewer than words. */
  predicate IsCompound(words: seq<Text>, gaps: seq<Text>) {
    && |words| == |gaps| + 1
    && (forall i :: 0 <= i < |words| ==> IsWord(words[i]))
    && forall i :: 0 <= i < |gaps| ==> Meet(words[i], gaps[i], words[i + 1])
  }

  function Compound(words: seq<Text>, gaps: seq<Text>): Text
    requires |words| == |gaps| + 1
  {
    if gaps == [] then words[0] else words[0] + gaps[0] + Compound(words[1..], gaps[1..])
  }

  /** The word in small letters. */
  function InSmall(w: Text): (r: Text)
    ensures |r| == |w|
  {
    if w == [] then []
    else [if Capital(w[0]) then w[0] + 0x20 else if w[0] == KELVIN then 0x6B else w[0]] + InSmall(w[1..])
  }

  function AllInSmall(words: seq<Text>): (r: seq<Text>)
    ensures |r| == |words|
    ensures forall i :: 0 <= i < |words| ==> r[i] == InSmall(words[i])
  {
    if words == [] then [] else [InSmall(words[0])] + AllInSmall(words[1..])
  }

  // ---- how a key is taken apart ------------------------------------------------------------------

  /** Is a space put between this word and the rest? */
  predicate CamelAfter(w: Text, rest: Text) {
    w != [] && rest != [] && (Small(w[|w| - 1]) || Digit(w[|w| - 1])) && Capital(rest[0])
  }

  lemma SpacedStep(c: Unit, rest: Text)
    ensures var space := if rest != [] && IsWordChar(c) && IsUpper(rest[0]) then [SPACE] else [];
      Spaced([c] + rest) == Lower(c) + space + Spaced(rest)
  {
    assert ([c] + rest)[1..] == rest;
  }

  lemma TailOfWord(w: Text)
    requires IsWord(w) && |w| > 1
    ensures IsWord(w[1..]) && w[1..][|w| - 2] == w[|w| - 1] && !(IsWordChar(w[0]) && IsUpper(w[1]))
    ensures Letter(w[0])
  {
    var tail := w[1..];
    forall i | 0 <= i < |tail| - 1 ensures !((Small(tail[i]) || Digit(tail[i])) && Capital(tail[i + 1])) {
      assert tail[i] == w[i + 1] && tail[i + 1] == w[i + 2];
    }
  }

  lemma FirstInSmall(w: Text)
    requires w != [] && Letter(w[0])
    ensures InSmall(w) == Lower(w[0]) + InSmall(w[1..]) && w == [w[0]] + w[1..]
  {
  }

  lemma OneLetter(w: Text)
    requires IsWord(w) && |w| == 1
    ensures InSmall(w) == Lower(w[0]) && w == [w[0]]
  {
  }

  lemma {:induction false} SpacedAfter(w: Text, rest: Text)
    requires IsWord(w)
    ensures Spaced(w + rest) == InSmall(w) + (if CamelAfter(w, rest) then [SPACE] else []) + Spaced(rest)
  {
    assert |w| >= 1;
    hide IsWord, InSmall, Spaced, Lower;
    if |w| == 1 {
      OneLetter(w);
      SpacedStep(w[0], rest);
    } else {
      TailOfWord(w);
      FirstInSmall(w);
      var tail := w[1..] + rest;
      assert w + rest == [w[0]] + tail;
      SpacedStep(w[0], tail);
      SpacedAfter(w[1..], rest);
      var space := if CamelAfter(w, rest) then [SPACE] else [];
      Associate3(Lower(w[0]), InSmall(w[1..]), space, Spaced(rest));
    }
  }

  lemma Associate3(a: Text, b: Text, c: Text, d: Text)
    ensures a + [] + (b + c + d) == a + b + c + d
  {
  }

  lemma {:induction false} SpacedGap(g: Text, rest: Text)
    requires g == [] || IsGap(g)
    ensures Spaced(g + rest) == g + Spaced(rest)
  {
    if g == [] {
      assert g + rest == rest;
    } else {
      assert (g + rest)[1..] == g[1..] + rest;
      SpacedGap(g[1..], rest);
      assert Lower(g[0]) == [g[0]];
    }
  }

  lemma {:induction false} SmallHasWordChars(w: Text)
    requires forall i :: 0 <= i < |w| ==> Letter(w[i])
    ensures AllWordChars(InSmall(w))
  {
    if w != [] {
      SmallHasWordChars(w[1..]);
    }
  }

  lemma {:induction false} WordsOfRun(w: Text, rest: Text, current: Text)
    requires AllWordChars(w)
    ensures WordsOf(w + rest, current) == WordsOf(rest, current + w)
  {
    if w == [] {
      assert w + rest == rest && current + w == current;
    } else {
      assert (w + rest)[1..] == w[1..] + rest;
      assert current + [w[0]] + w[1..] == current + w;
      WordsOfRun(w[1..], rest, current + [w[0]]);
    }
  }

  /** A gap ends the current word. */
  lemma {:induction false} WordsOfGap(g: Text, rest: Text, current: Text)
    requires IsGap(g)
    ensures WordsOf(g + rest, current) == (if current == [] then [] else [current]) + WordsOf(rest, [])
  {
    var here := if current == [] then [] else [current];
    assert (g + rest)[1..] == g[1..] + rest;
    if |g| > 1 {
      WordsOfGap(g[1..], rest, []);
      assert WordsOf(g + rest, current) == here + ([] + WordsOf(rest, []));
    } else {
      assert g[1..] + rest == rest;
    }
  }

  /** What stands between two words of a key when it is taken apart. */
  lemma BetweenWords(left: Text, gap: Text, right: Text, more: Text) returns (g: Text)
    requires IsWord(left) && IsWord(right) && Meet(left, gap, right)
    ensures IsGap(g) && Spaced(left + gap + (right + more)) == InSmall(left) + g + Spaced(right + more)
  {
    hide IsWord, Spaced, InSmall;
    var rest := right + more;
    assert rest[0] == right[0];
    if gap == [] {
      assert left + gap + rest == left + rest;
      SpacedAfter(left, rest);
      g := [SPACE];
    } else {
      assert left + gap + rest == left + (gap + rest) && (gap + rest)[0] == gap[0];
      SpacedAfter(left, gap + rest);
      SpacedGap(gap, rest);
      g := gap;
      Associate2(InSmall(left), gap, Spaced(rest));
    }
  }

  lemma Associate2(a: Text, b: Text, c: Text)
    ensures a + [] + (b + c) == a + b + c == a + (b + c)
  {
  }

  lemma WordAndMore(words: seq<Text>, gaps: seq<Text>) returns (more: Text)
    requires IsCompound(words, gaps)
    ensures Compound(words, gaps) == words[0] + more
  {
    more := if gaps == [] then [] else gaps[0] + Compound(words[1..], gaps[1..]);
  }

  /** A key falls into exactly the words it is made of, in small letters. */
  lemma {:induction false} WordsOfCompound(words: seq<Text>, gaps: seq<Text>)
    requires IsCompound(words, gaps)
    ensures Words(Compound(words, gaps)) == AllInSmall(words)
    decreases |words|
  {
    var first := InSmall(words[0]);
    assert IsWord(words[0]);
    SmallHasWordChars(words[0]);
    if gaps == [] {
      LastWord(words[0]);
      assert words == [words[0]] && words[1..] == [];
    } else {
      hide Spaced, WordsOf, Lower, InSmall, Meet, IsWord, IsCompound;
      var rest := Compound(words[1..], gaps[1..]);
      RestIsCompound(words, gaps);
      WordsOfCompound(words[1..], gaps[1..]);
      var more := WordAndMore(words[1..], gaps[1..]);
      var g := BetweenWords(words[0], gaps[0], words[1], more);
      Associate2(first, g, Spaced(rest));
      WordsOfRun(first, g + Spaced(rest), []);
      assert [] + first == first;
      WordsOfGap(g, Spaced(rest), first);
    }
  }

  lemma LastWord(w: Text)
    requires IsWord(w)
    ensures Words(w) == [InSmall(w)]
  {
    hide Spaced, WordsOf;
    SpacedAfter(w, []);
    NothingSpaced();
    assert w + [] == w && InSmall(w) + [] + [] == InSmall(w);
    SmallHasWordChars(w);
    WordsOfWord(InSmall(w), []);
    assert [] + InSmall(w) == InSmall(w);
  }

  lemma NothingSpaced()
    ensures Spaced([]) == []
  {
  }

  lemma RestIsCompound(words: seq<Text>, gaps: seq<Text>)
    requires IsCompound(words, gaps) && gaps != []
    ensures IsCompound(words[1..], gaps[1..]) && IsWord(words[0]) && IsWord(words[1]) && words[1..][0] == words[1]
    ensures Meet(words[0], gaps[0], words[1])
  {
    hide IsWord, Meet;
    forall i | 0 <= i < |gaps[1..]| ensures Meet(words[1..][i], gaps[1..][i], words[1..][i + 1]) {
      assert Meet(words[i + 1], gaps[i + 1], words[i + 2]);
    }
  }

  // ---- what is sensitive ---------------------------------------------------------------------------

  /** The words that say that a value is a secret. */
  predicate IsSecretWord(w: Text) {
    || w == U("env") || w == U("envs") || w == U("environ") || w == U("environment")
    || w == U("token") || w == U("tokens") || w == U("secret") || w == U("secrets")
    || w == U("password") || w == U("passwd") || w == U("passphrase") || w == U("passcode")
    || w == U("credential") || w == U("credentials") || w == U("authorization") || w == U("auth")
    || w == U("apikey") || w == U("privatekey") || w == U("signingkey") || w == U("cookie") || w == U("cookies")
  }

  predicate NamesSecret(words: seq<Text>) {
    || (exists i :: 0 <= i < |words| && IsSecretWord(InSmall(words[i])))
    || (exists i :: 0 <= i && i + 1 < |words| && IsSecretWord(InSmall(words[i]) + InSmall(words[i + 1])))
  }

  lemma SecretWords(w: Text)
    ensures IsSecretWord(w) <==> w in SENSITIVE_WORDS
  {
    hide U;
  }

  /**
   * For any number of words and in any style, a key is sensitive exactly when one of its words names a
   * secret, or two neighbours do together.
   */
  lemma SensitiveByItsWords(words: seq<Text>, gaps: seq<Text>)
    requires IsCompound(words, gaps)
    ensures Sensitive(Compound(words, gaps)) <==> NamesSecret(words)
  {
    hide Words, IsSecretWord, InSmall, IsWord, Meet;
    WordsOfCompound(words, gaps);
    var small := AllInSmall(words);
    forall i | 0 <= i < |small| ensures small[i] in SENSITIVE_WORDS <==> IsSecretWord(InSmall(words[i])) {
      SecretWords(small[i]);
    }
    forall i | 0 <= i && i + 1 < |small|
      ensures small[i] + small[i + 1] in SENSITIVE_WORDS <==> IsSecretWord(InSmall(words[i]) + InSmall(words[i + 1]))
    {
      SecretWords(small[i] + small[i + 1]);
    }
  }

  /** And then its value is replaced, whatever it is. */
  lemma SecretIsReplaced(redactLine: Text -> Text, words: seq<Text>, gaps: seq<Text>, v: Value, depth: nat)
    requires IsCompound(words, gaps) && NamesSecret(words) && depth < 6
    ensures var key := Compound(words, gaps);
      Redact(redactLine, Obj([Field(key, v)]), depth, false) == Obj([Field(key, Str(U("[redacted]")))])
  {
    hide Sensitive, U, IsWord, Meet;
    SensitiveByItsWords(words, gaps);
    var key := Compound(words, gaps);
    assert RedactField(redactLine, Field(key, v), depth) == Str(REDACTED);
    assert Redact(redactLine, Obj([Field(key, v)]), depth, false).fields == [Field(key, Str(REDACTED))];
  }

  // ---- two words -------------------------------------------------------------------------------------

  predicate IsPlain(w: Text) {
    w != [] && forall i :: 0 <= i < |w| ==> Small(w[i]) || Digit(w[i])
  }

  lemma {:induction false} PlainIsSmall(w: Text)
    requires forall i :: 0 <= i < |w| ==> Small(w[i]) || Digit(w[i])
    ensures InSmall(w) == w
  {
    if w != [] {
      PlainIsSmall(w[1..]);
    }
  }

  function Capitalized(w: Text): (r: Text)
    requires w != [] && Small(w[0])
  {
    [w[0] - 0x20] + w[1..]
  }

  lemma CapitalizedIs(w: Text)
    requires IsPlain(w) && Small(w[0])
    ensures IsWord(Capitalized(w)) && InSmall(Capitalized(w)) == w && Capital(Capitalized(w)[0])
  {
    PlainIsSmall(w[1..]);
    assert Capitalized(w)[1..] == w[1..];
  }

  lemma NamesSecretOf(a: Text, b: Text)
    ensures NamesSecret([a, b]) <==>
      IsSecretWord(InSmall(a)) || IsSecretWord(InSmall(b)) || IsSecretWord(InSmall(a) + InSmall(b))
  {
    hide IsSecretWord, InSmall;
    var words := [a, b];
    assert words[0] == a && words[1] == b;
    assert IsSecretWord(InSmall(a)) ==> IsSecretWord(InSmall(words[0]));
    assert IsSecretWord(InSmall(b)) ==> IsSecretWord(InSmall(words[1]));
    assert IsSecretWord(InSmall(a) + InSmall(b)) ==> IsSecretWord(InSmall(words[0]) + InSmall(words[0 + 1]));
  }

  lemma CompoundOfTwo(a: Text, gap: Text, b: Text)
    requires IsWord(a) && IsWord(b) && Meet(a, gap, b)
    ensures IsCompound([a, b], [gap]) && Compound([a, b], [gap]) == a + gap + b
  {
    hide IsWord, Meet;
    assert [a, b][1..] == [b] && [gap][1..] == [];
  }

  /**
   * Two words `a` and `b` make the key `aB`, or one with a gap between them, like `a_b`, `a-b` or `a.b`: in
   * every style it is sensitive exactly when `a`, `b` or `ab` is a secret word.
   */
  lemma TwoWordKey(a: Text, b: Text, gap: Text)
    requires IsPlain(a) && IsPlain(b) && Small(b[0]) && IsGap(gap)
    ensures Sensitive(a + Capitalized(b)) <==> IsSecretWord(a) || IsSecretWord(b) || IsSecretWord(a + b)
    ensures Sensitive(a + gap + b) <==> IsSecretWord(a) || IsSecretWord(b) || IsSecretWord(a + b)
  {
    hide Sensitive, IsSecretWord, InSmall, NamesSecret, Compound, IsCompound;
    PlainIsSmall(a);
    PlainIsSmall(b);
    CapitalizedIs(b);
    CompoundOfTwo(a, [], Capitalized(b));
    assert a + [] + Capitalized(b) == a + Capitalized(b);
    SensitiveByItsWords([a, Capitalized(b)], [[]]);
    NamesSecretOf(a, Capitalized(b));
    CompoundOfTwo(a, gap, b);
    SensitiveByItsWords([a, b], [gap]);
    NamesSecretOf(a, b);
  }

  /** A capital i with a dot becomes an `i` and the dot by itself, which ends the word. */
  lemma DottedCapital(a: Text, b: Text)
    requires IsPlain(a) && IsPlain(b)
    ensures Words(a + [0x130] + b) == [a + [0x69], b]
  {
    hide WordsOf, Spaced, InSmall;
    PlainIsSmall(a);
    PlainIsSmall(b);
    assert a + [0x130] + b == a + ([0x130] + b);
    SpacedAfter(a, [0x130] + b);
    SpacedStep(0x130, b);
    NothingSpaced();
    SpacedAfter(b, []);
    assert b + [] == b && a + [] == a;
    var i, dot: Text := [0x69], [0x307];
    assert Spaced(a + [0x130] + b) == (a + i) + (dot + b);
    WordsOfRun(a + i, dot + b, []);
    assert [] + (a + i) == a + i;
    WordsOfGap(dot, b, a + i);
    WordsOfWord(b, []);
    assert [] + b == b;
  }
}
