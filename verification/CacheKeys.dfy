/** Text of the cache's Redis keys, as built in one place by the cache service, and the patterns
    its evictions delete. */
module CacheKeys {

  // ------------------------------------------------------------------ decimal numerals

  predicate IsDigit(c: char) { '0' <= c <= '9' }

  function Digit(n: nat): char
    requires n < 10
  {
    '0' + n as char
  }

  function Decimal(n: nat): (text: string)
    ensures text != [] && forall i :: 0 <= i < |text| ==> IsDigit(text[i])
  {
    if n < 10 then [Digit(n)] else Decimal(n / 10) + [Digit(n % 10)]
  }

  lemma {:induction false} DecimalInjective(m: nat, n: nat)
    requires Decimal(m) == Decimal(n)
    ensures m == n
  {
    var a, b := Decimal(m), Decimal(n);
    assert a[|a| - 1] == b[|b| - 1];
    if m >= 10 && n >= 10 {
      assert a[..|a| - 1] == Decimal(m / 10) && b[..|b| - 1] == Decimal(n / 10);
      DecimalInjective(m / 10, n / 10);
    }
  }

  // ------------------------------------------------------------------ keys

  function VersionKey(prefix: string): string { prefix + ":version" }

  function UnversionedKey(prefix: string, id: string): string { prefix + ":" + id }

  function VersionedKey(prefix: string, id: string, version: nat): string {
    prefix + ":" + id + ":v" + Decimal(version)
  }

  /** A list key is the versioned key of the id "list:<hash>"; without parameters the hash is "all". */
  function ListKey(prefix: string, hash: string, version: nat): string {
    prefix + ":list:" + hash + ":v" + Decimal(version)
  }

  function LockKey(key: string): string { key + ":lock" }

  /** Two texts of the form stem ":v" numeral agree only when stem and numeral do. */
  lemma TailUnique(a: string, m: nat, b: string, n: nat)
    requires a + ":v" + Decimal(m) == b + ":v" + Decimal(n)
    ensures a == b && m == n
  {
    var s, t := a + ":v" + Decimal(m), b + ":v" + Decimal(n);
    var dm, dn := Decimal(m), Decimal(n);
    assert s[|s| - |dm| - 1] == 'v' && t[|t| - |dn| - 1] == 'v';
    assert forall i :: |s| - |dm| <= i < |s| ==> s[i] == dm[i - (|s| - |dm|)];
    assert forall i :: |t| - |dn| <= i < |t| ==> t[i] == dn[i - (|t| - |dn|)];
    assert dm == s[|s| - |dm|..] && dn == t[|t| - |dn|..];
    DecimalInjective(m, n);
    assert a == s[..|a|] && b == t[..|b|];
  }

  /** Exactly when two versioned keys collide, prefixes included: "a" with "b:c" is "a:b" with "c". */
  lemma VersionedKeysCollide(p: string, id: string, v: nat, q: string, jd: string, w: nat)
    ensures VersionedKey(p, id, v) == VersionedKey(q, jd, w) <==> v == w && p + ":" + id == q + ":" + jd
  {
    if VersionedKey(p, id, v) == VersionedKey(q, jd, w) {
      TailUnique(p + ":" + id, v, q + ":" + jd, w);
    }
  }

  /** Under one prefix the key determines id and version. */
  lemma VersionedKeyInjective(p: string, id: string, v: nat, jd: string, w: nat)
    requires VersionedKey(p, id, v) == VersionedKey(p, jd, w)
    ensures id == jd && v == w
  {
    VersionedKeysCollide(p, id, v, p, jd, w);
    assert id == (p + ":" + id)[|p| + 1..] && jd == (p + ":" + jd)[|p| + 1..];
  }

  lemma ListKeyIsVersioned(p: string, hash: string, v: nat)
    ensures ListKey(p, hash, v) == VersionedKey(p, "list:" + hash, v)
  {
    assert p + ":list:" == p + ":" + "list:";
    assert p + ":" + "list:" + hash == p + ":" + ("list:" + hash);
  }

  /** Versioned keys, their locks and the version counters never share a key. */
  lemma KindsDisjoint(p: string, id: string, v: nat, q: string, key: string)
    ensures VersionedKey(p, id, v) != VersionKey(q)
    ensures VersionedKey(p, id, v) != LockKey(key)
    ensures VersionKey(q) != LockKey(key)
  {
    var k, c, l := VersionedKey(p, id, v), VersionKey(q), LockKey(key);
    assert IsDigit(k[|k| - 1]);
    assert c[|c| - 1] == 'n' && l[|l| - 1] == 'k';
  }

  lemma LockKeyInjective(a: string, b: string)
    requires LockKey(a) == LockKey(b)
    ensures a == b
  {
    assert a == LockKey(a)[..|a|] && b == LockKey(b)[..|b|];
  }

  // ------------------------------------------------------------------ deletion patterns

  /** Redis glob matching without character classes: '*' any run, '?' any one, '\' quotes the next. */
  predicate GlobMatch(pattern: string, key: string)
    decreases |pattern| + |key|
  {
    if pattern == [] then key == []
    else if pattern[0] == '*' then
      GlobMatch(pattern[1..], key) || (key != [] && GlobMatch(pattern, key[1..]))
    else if key == [] then false
    else if pattern[0] == '?' then GlobMatch(pattern[1..], key[1..])
    else if pattern[0] == '\\' && |pattern| > 1 then
      pattern[1] == key[0] && GlobMatch(pattern[2..], key[1..])
    else pattern[0] == key[0] && GlobMatch(pattern[1..], key[1..])
  }

  predicate Literal(text: string) {
    forall c :: c in text ==> c !in {'*', '?', '[', '\\'}
  }

  /** The pattern `deleteEntity` passes to Redis. */
  function EntityPattern(prefix: string, id: string): string { prefix + ":" + id + ":*" }

  lemma {:induction false} StarMatches(key: string)
    ensures GlobMatch("*", key)
  {
    assert "*"[1..] == "";
    if key != [] { StarMatches(key[1..]); }
  }

  lemma {:induction false} LiteralThenStar(text: string, key: string)
    requires Literal(text)
    ensures GlobMatch(text + "*", key) <==> text <= key
  {
    if text == [] {
      assert text + "*" == "*";
      StarMatches(key);
    } else if key != [] {
      assert (text + "*")[0] == text[0] && (text + "*")[1..] == text[1..] + "*";
      assert text[0] in text;
      assert Literal(text[1..]) by { assert forall c :: c in text[1..] ==> c in text; }
      LiteralThenStar(text[1..], key[1..]);
      assert text <= key <==> text[0] == key[0] && text[1..] <= key[1..];
    } else {
      assert (text + "*")[0] == text[0] && text[0] in text;
    }
  }

  lemma EntityPatternMatches(p: string, id: string, key: string)
    requires Literal(p) && Literal(id)
    ensures GlobMatch(EntityPattern(p, id), key) <==> p + ":" + id + ":" <= key
  {
    var text := p + ":" + id + ":";
    assert Literal(text);
    assert EntityPattern(p, id) == text + "*";
    LiteralThenStar(text, key);
  }

  /** What deleting an entity removes: every version of the id and of ids nested below it, together with
      their locks; never the prefix's own version counter nor the unversioned key. */
  lemma EntityPatternReach(p: string, id: string, jd: string, v: nat)
    requires Literal(p) && Literal(id)
    ensures GlobMatch(EntityPattern(p, id), VersionedKey(p, jd, v)) <==> jd == id || id + ":" <= jd
    ensures GlobMatch(EntityPattern(p, id), LockKey(VersionedKey(p, id, v)))
    ensures !GlobMatch(EntityPattern(p, id), VersionKey(p))
    ensures !GlobMatch(EntityPattern(p, id), UnversionedKey(p, id))
  {
    var stem := p + ":";
    var k, lock := VersionedKey(p, jd, v), LockKey(VersionedKey(p, id, v));
    EntityPatternMatches(p, id, k);
    EntityPatternMatches(p, id, lock);
    EntityPatternMatches(p, id, VersionKey(p));
    EntityPatternMatches(p, id, UnversionedKey(p, id));
    assert p + ":" + id + ":" == stem + (id + ":");
    assert k == stem + (jd + ":v" + Decimal(v));
    assert lock == stem + (id + ":") + ("v" + Decimal(v) + ":lock");
    PrefixCancels(stem, id + ":", jd + ":v" + Decimal(v));
    NestedId(id, jd, v);
    assert VersionKey(p) == stem + "version";
    PrefixCancels(stem, id + ":", "version");
    assert forall i :: 0 <= i < |"version"| ==> "version"[i] != ':';
    assert (id + ":")[|id|] == ':';
  }

  lemma PrefixCancels(stem: string, a: string, b: string)
    ensures stem + a <= stem + b <==> a <= b
  {
    if stem + a <= stem + b {
      assert forall i :: 0 <= i < |a| ==> (stem + a)[|stem| + i] == a[i];
      assert forall i :: 0 <= i < |b| ==> (stem + b)[|stem| + i] == b[i];
    }
  }

  lemma NestedId(id: string, jd: string, v: nat)
    ensures id + ":" <= jd + ":v" + Decimal(v) <==> jd == id || id + ":" <= jd
  {
    var t := jd + ":v" + Decimal(v);
    assert forall i :: |jd| + 1 < i < |t| ==> t[i] == Decimal(v)[i - |jd| - 2];
    assert forall i :: |jd| < i < |t| ==> t[i] != ':';
    assert forall n :: 0 <= n <= |jd| ==> t[..n] == jd[..n];
    assert t[..|jd| + 1] == jd + ":";
    if id + ":" <= t {
      assert t[|id|] == ':' && t[..|id|] == id && t[..|id| + 1] == id + ":";
    }
  }
}
