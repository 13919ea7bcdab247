/** The canonical text from which list keys and argument hashes are computed: `normalize` followed by
    JSON text. Two inputs get the same text exactly when they agree up to key order, dropped fields and
    the values that normalisation turns into null. */
module CanonicalJson {
  import opened CacheKeys

  /** JavaScript values without cycles: objects list their own properties in insertion order. */
  datatype Js =
    | Undefined
    | Null
    | Bool(b: bool)
    | Int(n: int)
    | Str(s: string)
    | Arr(items: seq<Js>)
    | Obj(fields: seq<Field>)

  datatype Field = Field(key: string, val: Js)

  ghost predicate DistinctKeys(fields: seq<Field>) {
    forall i, j :: 0 <= i < j < |fields| ==> fields[i].key != fields[j].key
  }

  ghost predicate WellFormed(v: Js) {
    match v
    case Arr(items) => forall i :: 0 <= i < |items| ==> WellFormed(items[i])
    case Obj(fields) => DistinctKeys(fields) && forall i :: 0 <= i < |fields| ==> WellFormed(fields[i].val)
    case _ => true
  }

  predicate HasKey(fields: seq<Field>, key: string) {
    exists i :: 0 <= i < |fields| && fields[i].key == key
  }

  predicate RequestLike(fields: seq<Field>) {
    HasKey(fields, "headers") && HasKey(fields, "method")
  }

  /** Fields that survive: an undefined one is skipped, and assigning "__proto__" creates no property. */
  predicate Kept(f: Field) {
    f.val != Undefined && f.key != "__proto__"
  }

  // ------------------------------------------------------------------ the reference: agreeing values

  /** Values that are all taken for null: null and undefined, and objects with own keys "headers" and "method". */
  predicate NullLike(v: Js) {
    || v.Undefined? || v.Null?
    || (v.Obj? && (exists i :: 0 <= i < |v.fields| && v.fields[i].key == "headers")
               && (exists j :: 0 <= j < |v.fields| && v.fields[j].key == "method"))
  }

  /** Fields that make a difference: every defined one, whatever its name, except "__proto__". */
  predicate Counts(f: Field) { !f.val.Undefined? && f.key != "__proto__" }

  /** When two values mean the same key. */
  ghost predicate Same(a: Js, b: Js)
    decreases a, 1
  {
    if NullLike(a) || NullLike(b) then NullLike(a) && NullLike(b)
    else if a.Arr? && b.Arr? then
      |a.items| == |b.items| && forall i :: 0 <= i < |a.items| ==> Same(a.items[i], b.items[i])
    else if a.Obj? && b.Obj? then
      && (forall i :: 0 <= i < |a.fields| && Counts(a.fields[i]) ==> Found(a.fields[i], b.fields))
      && (forall j :: 0 <= j < |b.fields| && Counts(b.fields[j]) ==> KeyKept(b.fields[j].key, a.fields))
    else a == b
  }

  /** An object keeps a field with the same key and an agreeing value. */
  ghost predicate Found(f: Field, fields: seq<Field>)
    decreases f, 2
  {
    exists j :: 0 <= j < |fields| && Counts(fields[j]) && fields[j].key == f.key && Same(f.val, fields[j].val)
  }

  ghost predicate KeyKept(key: string, fields: seq<Field>) {
    exists i :: 0 <= i < |fields| && Counts(fields[i]) && fields[i].key == key
  }

  // ------------------------------------------------------------------ order of an object's keys

  predicate Less(a: string, b: string) {
    if b == [] then false
    else if a == [] then true
    else a[0] < b[0] || (a[0] == b[0] && Less(a[1..], b[1..]))
  }

  /** Array-index keys: canonical numerals below 2^32 - 1. JavaScript lists these first, by value. */
  predicate IsIndex(k: string) {
    && 0 < |k| <= 10
    && (forall i :: 0 <= i < |k| ==> IsDigit(k[i]))
    && (k[0] != '0' || |k| == 1)
    && (|k| == 10 ==> !Less("4294967294", k))
  }

  /** The order in which a normalised object's properties are listed: indices by value (for numerals
      without leading zeros, by length and then digit by digit), then the other keys as sorted. */
  predicate Before(a: string, b: string) {
    if IsIndex(a) != IsIndex(b) then IsIndex(a)
    else if IsIndex(a) && |a| != |b| then |a| < |b|
    else Less(a, b)
  }

  lemma {:induction false} LessIsStrictTotal(a: string, b: string, c: string)
    ensures !Less(a, a)
    ensures Less(a, b) && Less(b, c) ==> Less(a, c)
    ensures a == b || Less(a, b) || Less(b, a)
  {
    if a != [] && b != [] && c != [] {
      LessIsStrictTotal(a[1..], b[1..], c[1..]);
      assert a == [a[0]] + a[1..] && b == [b[0]] + b[1..];
    } else if a != [] {
      LessIsStrictTotal(a[1..], if b == [] then [] else b[1..], []);
      if b != [] { assert a == [a[0]] + a[1..] && b == [b[0]] + b[1..]; }
    }
  }

  lemma BeforeIsStrictTotal(a: string, b: string, c: string)
    ensures !Before(a, a)
    ensures Before(a, b) && Before(b, c) ==> Before(a, c)
    ensures a == b || Before(a, b) || Before(b, a)
  {
    LessIsStrictTotal(a, b, c);
  }

  ghost predicate Ordered(fields: seq<Field>) {
    forall i, j :: 0 <= i < j < |fields| ==> Before(fields[i].key, fields[j].key)
  }

  lemma HasFirst<T>(s: seq<T>)
    ensures s != [] ==> exists x :: x in s
  {
    if s != [] { assert s[0] in s; }
  }

  /** Ordered listings with the same members are the same listing. */
  lemma {:induction false} OrderedUnique(a: seq<Field>, b: seq<Field>)
    requires Ordered(a) && Ordered(b)
    requires forall f :: f in a <==> f in b
    ensures a == b
  {
    if a == [] {
      HasFirst(b);
    } else {
      assert a[0] in a;
      assert b != [] && b[0] in b;
      BeforeIsStrictTotal(a[0].key, b[0].key, a[0].key);
      assert a[0] == b[0];
      forall f | f in a[1..] || f in b[1..]
        ensures f in a[1..] && f in b[1..]
      {
        BeforeIsStrictTotal(f.key, f.key, f.key);
        assert f in a && f in b;
      }
      OrderedUnique(a[1..], b[1..]);
      assert a == [a[0]] + a[1..] && b == [b[0]] + b[1..];
    }
  }

  // ------------------------------------------------------------------ normalize

  function Insert(f: Field, fields: seq<Field>): seq<Field> {
    if fields == [] || Before(f.key, fields[0].key) then [f] + fields
    else [fields[0]] + Insert(f, fields[1..])
  }

  function Normalize(v: Js): Js
    decreases v, 1
  {
    match v
    case Undefined => Null
    case Arr(items) => Arr(NormalizeItems(items))
    case Obj(fields) => if RequestLike(fields) then Null else Obj(NormalizeFields(fields))
    case _ => v
  }

  function NormalizeItems(items: seq<Js>): (r: seq<Js>)
    ensures |r| == |items| && forall i :: 0 <= i < |r| ==> r[i] == Normalize(items[i])
    decreases items, 0
  {
    if items == [] then [] else [Normalize(items[0])] + NormalizeItems(items[1..])
  }

  function NormalizeFields(fields: seq<Field>): seq<Field>
    decreases fields, 0
  {
    if fields == [] then []
    else
      var rest := NormalizeFields(fields[1..]);
      if Kept(fields[0]) then Insert(Field(fields[0].key, Normalize(fields[0].val)), rest) else rest
  }

  lemma {:induction false} InsertMembers(f: Field, fields: seq<Field>)
    ensures forall g :: g in Insert(f, fields) <==> g == f || g in fields
    ensures Ordered(fields) && (forall i :: 0 <= i < |fields| ==> fields[i].key != f.key) ==> Ordered(Insert(f, fields))
  {
    if fields != [] && !Before(f.key, fields[0].key) {
      InsertMembers(f, fields[1..]);
      assert fields == [fields[0]] + fields[1..];
      var r := Insert(f, fields[1..]);
      if Ordered(fields) && (forall i :: 0 <= i < |fields| ==> fields[i].key != f.key) {
        BeforeIsStrictTotal(fields[0].key, f.key, f.key);
        assert forall g :: g in fields[1..] ==> Before(fields[0].key, g.key);
        assert forall j :: 0 <= j < |r| ==> r[j] in r;
      }
    } else if fields != [] {
      forall j | 0 <= j < |fields| && Ordered(fields)
        ensures Before(f.key, fields[j].key)
      {
        BeforeIsStrictTotal(f.key, fields[0].key, fields[j].key);
      }
    }
  }

  /** The members of a normalised object: the kept fields, normalised, in order. */
  lemma {:induction false} FieldsMembers(fields: seq<Field>)
    requires DistinctKeys(fields)
    ensures forall f :: f in NormalizeFields(fields) <==>
              exists i :: 0 <= i < |fields| && Kept(fields[i]) && f == Field(fields[i].key, Normalize(fields[i].val))
    ensures Ordered(NormalizeFields(fields))
  {
    if fields == [] {
    } else {
      FieldsMembers(fields[1..]);
      var rest := NormalizeFields(fields[1..]);
      var f0 := Field(fields[0].key, Normalize(fields[0].val));
      forall k | 0 <= k < |rest|
        ensures rest[k].key != f0.key
      {
        assert rest[k] in rest;
        var i :| 0 <= i < |fields[1..]| && Kept(fields[1..][i]) && rest[k] == Field(fields[1..][i].key, Normalize(fields[1..][i].val));
        assert fields[i + 1] == fields[1..][i];
      }
      InsertMembers(f0, rest);
      forall f
        ensures f in NormalizeFields(fields) <==>
                  exists i :: 0 <= i < |fields| && Kept(fields[i]) && f == Field(fields[i].key, Normalize(fields[i].val))
      {
        if f in rest {
          var i :| 0 <= i < |fields[1..]| && Kept(fields[1..][i]) && f == Field(fields[1..][i].key, Normalize(fields[1..][i].val));
          assert fields[i + 1] == fields[1..][i];
        }
        if i :| 0 <= i < |fields| && Kept(fields[i]) && f == Field(fields[i].key, Normalize(fields[i].val)) {
          if i > 0 { assert fields[i] == fields[1..][i - 1]; }
        }
      }
    }
  }

  // ------------------------------------------------------------------ normal forms and agreement

  lemma NullLikeIsNull(v: Js)
    ensures Normalize(v) == Null <==> NullLike(v)
  {
  }

  /** Two inputs have the same normal form exactly when they agree. */
  lemma {:induction false} NormalFormsDecide(a: Js, b: Js)
    requires WellFormed(a) && WellFormed(b)
    ensures Normalize(a) == Normalize(b) <==> Same(a, b)
    decreases a
  {
    NullLikeIsNull(a);
    NullLikeIsNull(b);
    if !NullLike(a) && !NullLike(b) {
      if a.Arr? && b.Arr? {
        ItemsDecide(a.items, b.items);
      } else if a.Obj? && b.Obj? {
        FieldsDecide(a, b);
      }
    }
  }

  lemma {:induction false} ItemsDecide(a: seq<Js>, b: seq<Js>)
    requires WellFormed(Arr(a)) && WellFormed(Arr(b))
    ensures NormalizeItems(a) == NormalizeItems(b) <==> |a| == |b| && forall i :: 0 <= i < |a| ==> Same(a[i], b[i])
    decreases a
  {
    forall i | 0 <= i < |a| && i < |b|
      ensures Normalize(a[i]) == Normalize(b[i]) <==> Same(a[i], b[i])
    {
      NormalFormsDecide(a[i], b[i]);
    }
    if NormalizeItems(a) == NormalizeItems(b) {
      assert forall i :: 0 <= i < |a| ==> Normalize(a[i]) == NormalizeItems(a)[i] == NormalizeItems(b)[i] == Normalize(b[i]);
    }
  }

  /** The fields' values are decided by their normal forms. */
  ghost predicate ValuesDecided(a: Js, b: Js)
    requires a.Obj? && b.Obj?
  {
    forall i, j :: 0 <= i < |a.fields| && 0 <= j < |b.fields| ==>
      (Normalize(a.fields[i].val) == Normalize(b.fields[j].val) <==> Same(a.fields[i].val, b.fields[j].val))
  }

  /** Field i of an object, as it appears in the normal form. */
  function Normal(a: Js, i: nat): Field
    requires a.Obj? && i < |a.fields|
  {
    Field(a.fields[i].key, Normalize(a.fields[i].val))
  }

  lemma NormalMember(a: Js, f: Field)
    requires a.Obj? && DistinctKeys(a.fields)
    ensures f in NormalizeFields(a.fields) <==> exists i :: 0 <= i < |a.fields| && Kept(a.fields[i]) && Normal(a, i) == f
  {
    FieldsMembers(a.fields);
    if f in NormalizeFields(a.fields) {
      var i :| 0 <= i < |a.fields| && Kept(a.fields[i]) && f == Field(a.fields[i].key, Normalize(a.fields[i].val));
      assert Normal(a, i) == f;
    }
  }

  /** A kept field is found in b exactly when its normal form is a member of b's. */
  lemma FoundIsMember(a: Js, i: nat, b: Js)
    requires a.Obj? && b.Obj? && DistinctKeys(b.fields) && i < |a.fields| && ValuesDecided(a, b)
    ensures Found(a.fields[i], b.fields) <==> Normal(a, i) in NormalizeFields(b.fields)
  {
    var f := Normal(a, i);
    NormalMember(b, f);
    if Found(a.fields[i], b.fields) {
      var j :| 0 <= j < |b.fields| && Kept(b.fields[j]) && b.fields[j].key == a.fields[i].key
               && Same(a.fields[i].val, b.fields[j].val);
      assert Normal(b, j) == f;
    }
    if j :| 0 <= j < |b.fields| && Kept(b.fields[j]) && Normal(b, j) == f {
      assert Same(a.fields[i].val, b.fields[j].val);
    }
  }

  lemma EqualFieldsAgree(a: Js, b: Js)
    requires a.Obj? && b.Obj? && DistinctKeys(a.fields) && DistinctKeys(b.fields)
    requires ValuesDecided(a, b) && NormalizeFields(a.fields) == NormalizeFields(b.fields)
    ensures forall i :: 0 <= i < |a.fields| && Kept(a.fields[i]) ==> Found(a.fields[i], b.fields)
    ensures forall j :: 0 <= j < |b.fields| && Kept(b.fields[j]) ==> KeyKept(b.fields[j].key, a.fields)
  {
    forall i | 0 <= i < |a.fields| && Kept(a.fields[i])
      ensures Found(a.fields[i], b.fields)
    {
      NormalMember(a, Normal(a, i));
      FoundIsMember(a, i, b);
    }
    forall j | 0 <= j < |b.fields| && Kept(b.fields[j])
      ensures KeyKept(b.fields[j].key, a.fields)
    {
      NormalMember(b, Normal(b, j));
      NormalMember(a, Normal(b, j));
      var i :| 0 <= i < |a.fields| && Kept(a.fields[i]) && Normal(a, i) == Normal(b, j);
      assert a.fields[i].key == b.fields[j].key;
    }
  }

  lemma AgreeingFieldsEqual(a: Js, b: Js)
    requires a.Obj? && b.Obj? && DistinctKeys(a.fields) && DistinctKeys(b.fields) && ValuesDecided(a, b)
    requires forall i :: 0 <= i < |a.fields| && Kept(a.fields[i]) ==> Found(a.fields[i], b.fields)
    requires forall j :: 0 <= j < |b.fields| && Kept(b.fields[j]) ==> KeyKept(b.fields[j].key, a.fields)
    ensures NormalizeFields(a.fields) == NormalizeFields(b.fields)
  {
    var m, n := NormalizeFields(a.fields), NormalizeFields(b.fields);
    forall f | f in m
      ensures f in n
    {
      NormalMember(a, f);
      var i :| 0 <= i < |a.fields| && Kept(a.fields[i]) && Normal(a, i) == f;
      FoundIsMember(a, i, b);
    }
    forall f | f in n
      ensures f in m
    {
      NormalMember(b, f);
      var j :| 0 <= j < |b.fields| && Kept(b.fields[j]) && Normal(b, j) == f;
      BackMember(a, b, j);
    }
    FieldsMembers(a.fields);
    FieldsMembers(b.fields);
    OrderedUnique(m, n);
  }

  lemma BackMember(a: Js, b: Js, j: nat)
    requires a.Obj? && b.Obj? && DistinctKeys(a.fields) && DistinctKeys(b.fields) && ValuesDecided(a, b)
    requires j < |b.fields| && Kept(b.fields[j]) && KeyKept(b.fields[j].key, a.fields)
    requires forall i :: 0 <= i < |a.fields| && Kept(a.fields[i]) ==> Found(a.fields[i], b.fields)
    ensures Normal(b, j) in NormalizeFields(a.fields)
  {
    var i :| 0 <= i < |a.fields| && Kept(a.fields[i]) && a.fields[i].key == b.fields[j].key;
    NormalMember(a, Normal(a, i));
    FoundIsMember(a, i, b);
    NormalMember(b, Normal(a, i));
    var k :| 0 <= k < |b.fields| && Kept(b.fields[k]) && Normal(b, k) == Normal(a, i);
    assert b.fields[k].key == b.fields[j].key;
  }

  lemma {:induction false} FieldsDecide(a: Js, b: Js)
    requires a.Obj? && b.Obj? && WellFormed(a) && WellFormed(b) && !NullLike(a) && !NullLike(b)
    ensures NormalizeFields(a.fields) == NormalizeFields(b.fields) <==> Same(a, b)
    decreases a, 0
  {
    forall i, j | 0 <= i < |a.fields| && 0 <= j < |b.fields|
      ensures Normalize(a.fields[i].val) == Normalize(b.fields[j].val) <==> Same(a.fields[i].val, b.fields[j].val)
    {
      NormalFormsDecide(a.fields[i].val, b.fields[j].val);
    }
    if NormalizeFields(a.fields) == NormalizeFields(b.fields) { EqualFieldsAgree(a, b); }
    if Same(a, b) { AgreeingFieldsEqual(a, b); }
  }

  // ------------------------------------------------------------------ normal forms are values of their own class

  /** No undefined anywhere. */
  ghost predicate Defined(v: Js) {
    match v
    case Undefined => false
    case Arr(items) => forall i :: 0 <= i < |items| ==> Defined(items[i])
    case Obj(fields) => forall i :: 0 <= i < |fields| ==> Defined(fields[i].val)
    case _ => true
  }

  lemma OrderedDistinct(fields: seq<Field>)
    requires Ordered(fields)
    ensures DistinctKeys(fields)
  {
    forall i, j | 0 <= i < j < |fields|
      ensures fields[i].key != fields[j].key
    {
      BeforeIsStrictTotal(fields[i].key, fields[j].key, fields[i].key);
    }
  }

  lemma MemberIsNormal(v: Js, k: nat) returns (i: nat)
    requires v.Obj? && DistinctKeys(v.fields) && k < |NormalizeFields(v.fields)|
    ensures i < |v.fields| && Kept(v.fields[i]) && NormalizeFields(v.fields)[k] == Normal(v, i)
  {
    NormalMember(v, NormalizeFields(v.fields)[k]);
    i :| 0 <= i < |v.fields| && Kept(v.fields[i]) && Normal(v, i) == NormalizeFields(v.fields)[k];
  }

  /** The normal form is well formed, free of undefined, and agrees with the input. */
  lemma {:induction false} NormalFormAgrees(v: Js)
    requires WellFormed(v)
    ensures WellFormed(Normalize(v)) && Defined(Normalize(v)) && Same(Normalize(v), v)
    decreases v, 1
  {
    if v.Arr? {
      forall i | 0 <= i < |v.items|
        ensures var n := NormalizeItems(v.items)[i]; WellFormed(n) && Defined(n) && Same(n, v.items[i])
      {
        NormalFormAgrees(v.items[i]);
      }
    } else if v.Obj? && !NullLike(v) {
      NormalFieldsAgree(v);
    }
  }

  lemma {:induction false} NormalFieldsAgree(v: Js)
    requires v.Obj? && WellFormed(v) && !NullLike(v)
    ensures WellFormed(Normalize(v)) && Defined(Normalize(v)) && Same(Normalize(v), v)
    decreases v, 0
  {
    var n := NormalizeFields(v.fields);
    FieldsMembers(v.fields);
    OrderedDistinct(n);
    forall k | 0 <= k < |n|
      ensures WellFormed(n[k].val) && Defined(n[k].val) && Kept(n[k]) && Found(n[k], v.fields) && HasKey(v.fields, n[k].key)
    {
      var i := MemberIsNormal(v, k);
      NormalFormAgrees(v.fields[i].val);
    }
    forall i | 0 <= i < |v.fields| && Kept(v.fields[i])
      ensures KeyKept(v.fields[i].key, n)
    {
      NormalMember(v, Normal(v, i));
      var k :| 0 <= k < |n| && n[k] == Normal(v, i);
    }
    assert !RequestLike(n);
  }

  /** `normalize` is idempotent. */
  lemma NormalizeIdempotent(v: Js)
    requires WellFormed(v)
    ensures Normalize(Normalize(v)) == Normalize(v)
  {
    NormalFormAgrees(v);
    NormalFormsDecide(Normalize(v), v);
  }
}
