/** Image coordinates: parsing and printing them, pinning them to a digest, and image lineage. */
module ImageRef {
  import opened Bytes

  datatype Parsed = Tagged(name: string, tag: string) | Pinned(name: string, digest: string)

  /** The first position of `c` from `from` on, or the length if there is none. */
  function IndexOf(s: string, c: char, from: nat): (i: nat)
    requires from <= |s|
    ensures from <= i <= |s| && (i < |s| ==> s[i] == c) && forall k :: from <= k < i ==> s[k] != c
    decreases |s| - from
  {
    if from == |s| || s[from] == c then from else IndexOf(s, c, from + 1)
  }

  /** The position behind the last `/`, 0 if there is none. */
  function AfterLastSlash(s: string): (i: nat)
    ensures i <= |s| && (i > 0 ==> s[i - 1] == '/') && forall k :: i <= k < |s| ==> s[k] != '/'
  {
    if s == "" then 0 else if s[|s| - 1] == '/' then |s| else AfterLastSlash(s[..|s| - 1])
  }

  /** `name[:tag][@digest]`; the colon of a tag comes after the last slash, so a registry port is no tag. */
  function Parse(ref: string): Parsed {
    var at := IndexOf(ref, '@', 0);
    if at < |ref| then Pinned(ref[..at], ref[at + 1..])
    else
      var colon := IndexOf(ref, ':', AfterLastSlash(ref));
      if colon == |ref| then Tagged(ref, "latest") else Tagged(ref[..colon], ref[colon + 1..])
  }

  predicate IsHex(c: char) {
    '0' <= c <= '9' || 'a' <= c <= 'f'
  }

  predicate IsOciDigest(s: string) {
    |s| == 71 && s[..7] == "sha256:" && forall i :: 7 <= i < 71 ==> IsHex(s[i])
  }

  /** A digest is `sha256:` and 64 hexadecimal digits in small letters. */
  lemma DigestIs(s: string)
    ensures IsOciDigest(s) <==> exists hex: string :: s == "sha256:" + hex && AreHex(hex)
  {
    forall hex: string | AreHex(hex) ensures IsOciDigest("sha256:" + hex) {
      HexIsDigest(hex);
    }
    if IsOciDigest(s) {
      var hex := s[7..];
      assert s == "sha256:" + hex;
      forall i | 0 <= i < 64 ensures hex[i] in "0123456789abcdef" {
        assert hex[i] == s[i + 7];
        HexDigits(hex[i]);
      }
    }
  }

  predicate AreHex(hex: string) {
    |hex| == 64 && forall i :: 0 <= i < 64 ==> hex[i] in "0123456789abcdef"
  }

  lemma HexIsDigest(hex: string)
    requires AreHex(hex)
    ensures IsOciDigest("sha256:" + hex)
  {
    var s := "sha256:" + hex;
    assert s[..7] == "sha256:";
    forall i | 7 <= i < 71 ensures IsHex(s[i]) {
      HexDigits(hex[i - 7]);
    }
  }

  lemma HexDigits(c: char)
    ensures IsHex(c) <==> c in "0123456789abcdef"
  {
    var all := "0123456789abcdef";
    if IsHex(c) {
      var i := if c <= '9' then c as int - '0' as int else 10 + c as int - 'a' as int;
      assert all[i] == c;
    }
  }

  function Format(name: string, reference: string): string {
    if IsOciDigest(reference) then name + "@" + reference else name + ":" + reference
  }

  function Reference(p: Parsed): string {
    if p.Tagged? then p.tag else p.digest
  }

  /** Printing again what was parsed. */
  function Reformat(ref: string): string {
    Format(Parse(ref).name, Reference(Parse(ref)))
  }

  function PinnedImageRef(ref: string, digest: string): string {
    if '@' in ref then ref else if !IsOciDigest(digest) then ref else ref + "@" + digest
  }

  // ---- printing, then parsing ----------------------------------------------------------------------

  lemma FirstAt(a: string, c: char, b: string)
    ensures c !in a ==> IndexOf(a + [c] + b, c, 0) == |a|
    ensures c !in a && c !in b ==> IndexOf(a + b, c, 0) == |a + b|
  {
    var s := a + [c] + b;
    assert s[|a|] == c && forall k :: 0 <= k < |a| ==> s[k] == a[k];
  }

  /** A name without a colon behind its last slash: the colon of a registry port is fine. */
  predicate NoTagInside(name: string) {
    ':' !in name[AfterLastSlash(name)..]
  }

  /**
   * A name with a tag comes back from its printed form exactly when neither contains an `@`, the
   * tag has no slash and the name no colon behind its last slash.
   */
  lemma TagRoundTrip(name: string, tag: string)
    requires !IsOciDigest(tag)
    ensures Parse(Format(name, tag)) == Tagged(name, tag) <==>
      '@' !in name && '@' !in tag && '/' !in tag && NoTagInside(name)
  {
    var s := name + ":" + tag;
    assert s[|name|] == ':';
    assert forall k :: 0 <= k < |name| ==> s[k] == name[k];
    assert forall k :: 0 <= k < |tag| ==> s[|name| + 1 + k] == tag[k];
    var at := IndexOf(s, '@', 0);
    if at == |s| {
      NoAt(name, tag);
      TagPart(name, tag);
    } else {
      assert '@' in name || '@' in tag;
    }
  }

  /** A name alone stands for its tag `latest`; it is a name alone exactly without an `@` or a tag. */
  lemma DefaultTag(name: string)
    ensures Parse(name) == Tagged(name, "latest") <==> '@' !in name && NoTagInside(name)
  {
    hide AfterLastSlash, IndexOf;
    var at := IndexOf(name, '@', 0);
    if at == |name| {
      TagInside(name);
      var colon := IndexOf(name, ':', AfterLastSlash(name));
      if colon < |name| {
        assert |Parse(name).name| == colon;
      }
    }
  }

  lemma NoAt(name: string, tag: string)
    requires var s := name + ":" + tag; IndexOf(s, '@', 0) == |s|
    ensures '@' !in name && '@' !in tag
  {
    var s := name + ":" + tag;
    assert forall k :: 0 <= k < |name| ==> s[k] == name[k];
    assert forall k :: 0 <= k < |tag| ==> s[|name| + 1 + k] == tag[k];
  }

  lemma TagPart(name: string, tag: string)
    requires var s := name + ":" + tag; IndexOf(s, '@', 0) == |s|
    ensures Parse(name + ":" + tag) == Tagged(name, tag) <==> '/' !in tag && NoTagInside(name)
  {
    hide AfterLastSlash, IndexOf, NoTagInside;
    var s := name + ":" + tag;
    var colon := IndexOf(s, ':', AfterLastSlash(s));
    assert s[..|name|] == name && s[|name| + 1..] == tag;
    if '/' in tag {
      SlashInTag(name, tag);
    } else {
      ColonOfTag(name, tag);
    }
    if colon != |name| {
      assert |Parse(s).name| == colon;
    }
  }

  /** A slash in the tag puts the colon that is looked for behind the one that separates. */
  lemma SlashInTag(name: string, tag: string)
    requires '/' in tag
    ensures var s := name + ":" + tag; IndexOf(s, ':', AfterLastSlash(s)) > |name|
  {
    hide AfterLastSlash, IndexOf;
    var s := name + ":" + tag;
    var k :| 0 <= k < |tag| && tag[k] == '/';
    assert s[|name| + 1 + k] == '/';
  }

  /** Otherwise the separating colon is found unless the name has one behind its last slash. */
  lemma ColonOfTag(name: string, tag: string)
    requires '/' !in tag
    ensures var s := name + ":" + tag; IndexOf(s, ':', AfterLastSlash(s)) == |name| <==> NoTagInside(name)
  {
    hide AfterLastSlash, IndexOf;
    var s := name + ":" + tag;
    LastSlashOfName(name, tag);
    var slash := AfterLastSlash(s);
    assert s[|name|] == ':';
    assert forall k :: slash <= k < |name| ==> s[k] == name[slash..][k - slash];
    if !NoTagInside(name) {
      var k :| 0 <= k < |name[slash..]| && name[slash..][k] == ':';
      assert s[slash + k] == ':';
    }
  }

  /** Only one position is behind the last slash. */
  lemma LastSlashIs(s: string, i: nat)
    requires i <= |s| && (i > 0 ==> s[i - 1] == '/') && '/' !in s[i..]
    ensures AfterLastSlash(s) == i
  {
    assert forall k :: i <= k < |s| ==> s[i..][k - i] == s[k];
  }

  lemma LastSlashOfName(name: string, tag: string)
    requires '/' !in tag
    ensures AfterLastSlash(name + ":" + tag) == AfterLastSlash(name)
  {
    hide AfterLastSlash;
    var s, i := name + ":" + tag, AfterLastSlash(name);
    assert forall k :: 0 <= k < |name| ==> s[k] == name[k];
    assert s[i..] == name[i..] + ":" + tag;
    LastSlashIs(s, i);
  }

  /** A name with a digest comes back exactly when the name has no `@`. */
  lemma DigestRoundTrip(name: string, digest: string)
    requires IsOciDigest(digest)
    ensures Parse(Format(name, digest)) == Pinned(name, digest) <==> '@' !in name
  {
    var s := name + "@" + digest;
    FirstAt(name, '@', digest);
    assert s == name + ['@'] + digest && s[|name|] == '@';
    var at := IndexOf(s, '@', 0);
    if '@' !in name {
      assert s[..at] == name && s[at + 1..] == digest;
    } else {
      var k :| 0 <= k < |name| && name[k] == '@';
      assert s[k] == '@' && at <= k;
      assert |s[..at]| != |name|;
    }
  }

  /** Pinning a tagged coordinate fixes exactly that digest, of exactly that coordinate. */
  lemma PinningFixes(ref: string, digest: string)
    requires '@' !in ref && IsOciDigest(digest)
    ensures Parse(PinnedImageRef(ref, digest)) == Pinned(ref, digest)
    ensures PinnedImageRef(PinnedImageRef(ref, digest), digest) == PinnedImageRef(ref, digest)
  {
    assert ref + "@" + digest == Format(ref, digest);
    DigestRoundTrip(ref, digest);
    assert (ref + "@" + digest)[|ref|] == '@';
  }

  // ---- parsing, then printing ----------------------------------------------------------------------

  /**
   * Printing a parsed coordinate is stable from then on, for every coordinate without an `@`, and
   * for every one with a proper digest behind its first `@`.
   */
  lemma ReformatIsIdempotent(ref: string)
    requires '@' !in ref || IsOciDigest(Reference(Parse(ref)))
    ensures Reformat(Reformat(ref)) == Reformat(ref)
  {
    var p := Parse(ref);
    if '@' in ref {
      assert p.Pinned?;
      assert '@' !in p.name;
      DigestRoundTrip(p.name, p.digest);
    } else {
      assert IndexOf(ref, '@', 0) == |ref|;
      ParsedTag(ref);
      if IsOciDigest(p.tag) {
        DigestRoundTrip(p.name, p.tag);
      } else {
        TagRoundTrip(p.name, p.tag);
      }
    }
  }

  lemma ParsedTag(ref: string)
    requires '@' !in ref
    ensures var p := Parse(ref); p.Tagged? && '@' !in p.name && '@' !in p.tag && '/' !in p.tag && NoTagInside(p.name)
  {
    hide AfterLastSlash, IndexOf, IsOciDigest;
    assert IndexOf(ref, '@', 0) == |ref|;
    var p, slash := Parse(ref), AfterLastSlash(ref);
    var colon := IndexOf(ref, ':', slash);
    assert p.name == ref[..colon] by { assert ref[..|ref|] == ref; }
    SlashOfPrefix(ref, colon);
    forall k | 0 <= k < |p.name[slash..]| ensures p.name[slash..][k] != ':' {
      assert p.name[slash..][k] == ref[slash + k];
    }
    forall c | c in p.tag ensures c != '@' && c != '/' {
      if colon < |ref| {
        var k :| 0 <= k < |p.tag| && p.tag[k] == c;
        assert c == ref[colon + 1 + k];
      }
    }
  }

  lemma SlashOfPrefix(ref: string, n: nat)
    requires AfterLastSlash(ref) <= n <= |ref|
    ensures AfterLastSlash(ref[..n]) == AfterLastSlash(ref)
  {
    hide AfterLastSlash;
    LastSlashIs(ref[..n], AfterLastSlash(ref));
  }

  /** The coordinates that printing leaves alone: a proper digest behind the first `@`, or a tag that is none. */
  predicate Canonical(ref: string) {
    var p := Parse(ref);
    if '@' in ref then IsOciDigest(Reference(p)) else !NoTagInside(ref) && !IsOciDigest(Reference(p))
  }

  lemma CanonicalIsFixed(ref: string)
    ensures Reformat(ref) == ref <==> Canonical(ref)
  {
    hide AfterLastSlash, IndexOf;
    var at, slash := IndexOf(ref, '@', 0), AfterLastSlash(ref);
    if '@' in ref {
      Rejoined(ref, at);
    } else {
      assert at == |ref|;
      var colon := IndexOf(ref, ':', slash);
      if colon < |ref| {
        Rejoined(ref, colon);
        assert ref[slash..][colon - slash] == ':';
      } else {
        assert forall k :: 0 <= k < |ref[slash..]| ==> ref[slash..][k] == ref[slash + k];
        assert |Reformat(ref)| > |ref|;
      }
    }
  }

  lemma Rejoined(s: string, i: nat)
    requires i < |s|
    ensures s[..i] + [s[i]] + s[i + 1..] == s
    ensures forall c: char :: c != s[i] ==> s[..i] + [c] + s[i + 1..] != s
  {
    forall c: char | c != s[i] ensures s[..i] + [c] + s[i + 1..] != s {
      assert (s[..i] + [c] + s[i + 1..])[i] == c;
    }
  }

  /**
   * Is printing stable from the first time on? Always without an `@`, and with a proper digest behind
   * the first one. An improper one is printed as a tag: with an `@` in it, what follows that must be a
   * proper digest; without, there must be a colon behind the last slash, and no digest behind that.
   */
  predicate Stable(ref: string) {
    var at := IndexOf(ref, '@', 0);
    at == |ref|
    || (var name, d := ref[..at], ref[at + 1..];
        || IsOciDigest(d)
        || if '@' in d then IsOciDigest(d[IndexOf(d, '@', 0) + 1..])
           else
             var printed := name + ":" + d;
             var colon := IndexOf(printed, ':', AfterLastSlash(printed));
             colon < |printed| && !IsOciDigest(printed[colon + 1..]))
  }

  lemma AtOfTag(name: string, d: string)
    requires '@' !in name && '@' in d
    ensures var s := name + ":" + d;
      && IndexOf(s, '@', 0) == |name| + 1 + IndexOf(d, '@', 0) < |s|
      && s[IndexOf(s, '@', 0) + 1..] == d[IndexOf(d, '@', 0) + 1..]
  {
    hide IndexOf;
    var s, i := name + ":" + d, IndexOf(d, '@', 0);
    assert s[|name| + 1 + i] == '@';
    forall k | 0 <= k < |name| + 1 + i ensures s[k] != '@' {
      if k > |name| {
        assert s[k] == d[k - |name| - 1];
      }
    }
    assert IndexOf(s, '@', 0) == |name| + 1 + i;
  }

  lemma NoAtInTag(name: string, d: string)
    requires '@' !in name && '@' !in d
    ensures '@' !in name + ":" + d
  {
  }

  lemma CanonicalWithAt(t: string)
    ensures var at := IndexOf(t, '@', 0); at < |t| ==> (Canonical(t) <==> IsOciDigest(t[at + 1..]))
  {
    hide AfterLastSlash, IndexOf, IsOciDigest, NoTagInside;
  }

  lemma CanonicalWithoutAt(t: string)
    requires '@' !in t
    ensures var colon := IndexOf(t, ':', AfterLastSlash(t));
      Canonical(t) <==> colon < |t| && !IsOciDigest(t[colon + 1..])
  {
    hide AfterLastSlash, IndexOf, IsOciDigest, NoTagInside;
    assert IndexOf(t, '@', 0) == |t|;
    TagInside(t);
  }

  lemma PrintedStays(name: string, d: string)
    requires '@' !in name && !IsOciDigest(d)
    ensures var t := name + ":" + d;
      Reformat(t) == t <==>
        if '@' in d then IsOciDigest(d[IndexOf(d, '@', 0) + 1..])
        else var colon := IndexOf(t, ':', AfterLastSlash(t)); colon < |t| && !IsOciDigest(t[colon + 1..])
  {
    hide AfterLastSlash, IndexOf, IsOciDigest, Canonical, Reformat;
    var t := name + ":" + d;
    CanonicalIsFixed(t);
    if '@' in d {
      AtOfTag(name, d);
      CanonicalWithAt(t);
    } else {
      NoAtInTag(name, d);
      CanonicalWithoutAt(t);
    }
  }

  lemma TagInside(t: string)
    ensures !NoTagInside(t) <==> IndexOf(t, ':', AfterLastSlash(t)) < |t|
  {
    hide AfterLastSlash, IndexOf;
    var slash := AfterLastSlash(t);
    var colon := IndexOf(t, ':', slash);
    assert forall k :: 0 <= k < |t[slash..]| ==> t[slash..][k] == t[slash + k];
    if colon < |t| {
      assert t[slash..][colon - slash] == ':';
    }
  }

  /** The part behind the first `@` is printed behind an `@` again, or behind a colon. */
  lemma PrintedAt(ref: string, at: nat)
    requires at == IndexOf(ref, '@', 0) < |ref|
    ensures '@' !in ref[..at] && Parse(ref) == Pinned(ref[..at], ref[at + 1..])
    ensures !IsOciDigest(ref[at + 1..]) ==> Reformat(ref) == ref[..at] + ":" + ref[at + 1..]
  {
    hide IndexOf, IsOciDigest;
  }

  lemma IdempotentWhen(ref: string)
    ensures Reformat(Reformat(ref)) == Reformat(ref) <==> Stable(ref)
  {
    hide AfterLastSlash, IndexOf, IsOciDigest, Reformat;
    var at := IndexOf(ref, '@', 0);
    if at == |ref| {
      assert '@' !in ref;
      ReformatIsIdempotent(ref);
    } else {
      PrintedAt(ref, at);
      if IsOciDigest(ref[at + 1..]) {
        ReformatIsIdempotent(ref);
      } else {
        PrintedStays(ref[..at], ref[at + 1..]);
      }
    }
  }

  /** Without a proper digest it need not be: this one changes with every round. */
  lemma ReformatUnstable()
    ensures Reformat("i@a@b") == "i:a@b" && Reformat("i:a@b") == "i:a:b"
  {
    assert "i@a@b"[..1] == "i" && "i@a@b"[2..] == "a@b" && IndexOf("i@a@b", '@', 0) == 1;
    assert "i:a@b"[..3] == "i:a" && "i:a@b"[4..] == "b" && IndexOf("i:a@b", '@', 0) == 3;
  }

  // ---- lineage ---------------------------------------------------------------------------------------

  type Layers = seq<string>

  method IsDerivedFrom(candidate: Layers, base: Layers) returns (r: bool)
    ensures r <==> Derived(candidate, base)
  {
    if |base| == 0 {
      return false;
    }
    if |candidate| < |base| {
      return false;
    }
    for i := 0 to |base|
      invariant forall k :: 0 <= k < i ==> candidate[k] == base[k]
    {
      if candidate[i] != base[i] {
        return false;
      }
    }
    r := true;
  }

  /** An image is built on top of a base that has layers exactly when it begins with them. */
  predicate Derived(candidate: Layers, base: Layers) {
    base != [] && base <= candidate
  }

  /** On images with layers this is a partial order. */
  lemma LineageIsPartialOrder(a: Layers, b: Layers, c: Layers)
    ensures Derived(a, a) <==> a != []
    ensures Derived(a, b) && Derived(b, a) ==> a == b
    ensures Derived(a, b) && Derived(b, c) ==> Derived(a, c)
  {
    if Derived(a, b) && Derived(b, a) {
      assert a == b[..|a|];
    }
  }

  /** Any two ancestors of one image are related, so the longest of several is unique. */
  lemma AncestorsAreComparable(image: Layers, a: Layers, b: Layers)
    requires Derived(image, a) && Derived(image, b)
    ensures Derived(a, b) || Derived(b, a)
    ensures |a| == |b| ==> a == b
  {
    if |a| <= |b| {
      assert a == b[..|a|];
    } else {
      assert b == a[..|b|];
    }
  }
}
