/** JSON text of a normalised value, as in sections 4 to 7 of RFC 8259, and its unique readability. */
module JsonText {
  import opened CacheKeys
  import opened CanonicalJson

  // ------------------------------------------------------------------ strings

  function HexDigit(n: nat): char
    requires n < 16
  {
    if n < 10 then '0' + n as char else 'a' + (n - 10) as char
  }

  /** Quotation mark, backslash and control characters are escaped, five of them in short form. */
  function EscapeChar(c: char): string {
    if c == '"' then "\\\""
    else if c == '\\' then "\\\\"
    else if c as int == 8 then "\\b"
    else if c as int == 9 then "\\t"
    else if c as int == 10 then "\\n"
    else if c as int == 12 then "\\f"
    else if c as int == 13 then "\\r"
    else if c as int < 32 then "\\u00" + [HexDigit(c as int / 16), HexDigit(c as int % 16)]
    else [c]
  }

  function Escape(s: string): string {
    if s == [] then [] else EscapeChar(s[0]) + Escape(s[1..])
  }

  function Quote(s: string): string { "\"" + Escape(s) + "\"" }

  // ------------------------------------------------------------------ values

  function IntText(n: int): string {
    if n < 0 then "-" + Decimal(-n) else Decimal(n)
  }

  function Text(v: Js): string
    decreases v, 1
  {
    match v
    case Undefined => "null"
    case Null => "null"
    case Bool(b) => if b then "true" else "false"
    case Int(n) => IntText(n)
    case Str(s) => Quote(s)
    case Arr(items) => "[" + ItemsText(items)
    case Obj(fields) => "{" + FieldsText(fields)
  }

  /** The rest of an array after its opening bracket or a comma. */
  function ItemsText(items: seq<Js>): string
    decreases items, 0
  {
    if items == [] then "]"
    else Text(items[0]) + (if |items| == 1 then "]" else "," + ItemsText(items[1..]))
  }

  function FieldsText(fields: seq<Field>): string
    decreases fields, 0
  {
    if fields == [] then "}"
    else Quote(fields[0].key) + ":" + Text(fields[0].val) + (if |fields| == 1 then "}" else "," + FieldsText(fields[1..]))
  }

  /** What may follow a value inside a text. */
  predicate Follows(rest: string) {
    rest == [] || rest[0] == ',' || rest[0] == ']' || rest[0] == '}'
  }

  // ------------------------------------------------------------------ concatenation

  lemma Assoc(a: string, b: string, c: string)
    ensures a + b + c == a + (b + c)
  {
  }

  lemma Cancel(a: string, x: string, b: string, y: string)
    requires |a| == |b| && a + x == b + y
    ensures a == b && x == y
  {
    assert a == (a + x)[..|a|] && b == (b + y)[..|b|];
    assert x == (a + x)[|a|..] && y == (b + y)[|b|..];
  }

  lemma SameFirst(a: string, x: string, b: string, y: string)
    requires a != [] && b != [] && a + x == b + y
    ensures a[0] == b[0]
  {
    assert (a + x)[0] == a[0] && (b + y)[0] == b[0];
  }

  // ------------------------------------------------------------------ unique readability: strings

  /** The first characters of an escape tell how long it is. */
  lemma EscapeShape(c: char)
    ensures var e := EscapeChar(c);
            && |e| >= 1 && (e[0] != '\\' ==> |e| == 1)
            && (e[0] == '\\' ==> |e| >= 2 && (|e| == 6 <==> e[1] == 'u') && (|e| != 6 ==> |e| == 2))
  {
  }

  lemma EscapeInjective(c: char, d: char)
    requires EscapeChar(c) == EscapeChar(d)
    ensures c == d
  {
    var p, q := EscapeChar(c), EscapeChar(d);
    assert |p| == 6 ==> p[4] == q[4] && p[5] == q[5];
  }

  lemma EscapeCharUnique(c: char, d: char, x: string, y: string)
    requires EscapeChar(c) + x == EscapeChar(d) + y
    ensures c == d && x == y
  {
    EscapeShape(c);
    EscapeShape(d);
    var p, q := EscapeChar(c), EscapeChar(d);
    SameFirst(p, x, q, y);
    assert |p| > 1 ==> (p + x)[1] == p[1];
    assert |q| > 1 ==> (q + y)[1] == q[1];
    Cancel(p, x, q, y);
    EscapeInjective(c, d);
  }

  /** The rest of a string's text, up to and including its closing quotation mark. */
  function Closed(s: string): string { Escape(s) + "\"" }

  lemma ClosedHead(s: string)
    ensures s == [] ==> Closed(s) == "\""
    ensures s != [] ==> Closed(s) == EscapeChar(s[0]) + Closed(s[1..])
    ensures Closed(s) != [] && (s == [] <==> Closed(s)[0] == '"')
  {
    if s != [] {
      Assoc(EscapeChar(s[0]), Escape(s[1..]), "\"");
      assert EscapeChar(s[0])[0] != '"';
    }
  }

  lemma {:induction false} ClosedUnique(s: string, t: string, x: string, y: string)
    requires Closed(s) + x == Closed(t) + y
    ensures s == t && x == y
  {
    ClosedHead(s);
    ClosedHead(t);
    SameFirst(Closed(s), x, Closed(t), y);
    if s == [] {
      Cancel(Closed(s), x, Closed(t), y);
    } else {
      Assoc(EscapeChar(s[0]), Closed(s[1..]), x);
      Assoc(EscapeChar(t[0]), Closed(t[1..]), y);
      EscapeCharUnique(s[0], t[0], Closed(s[1..]) + x, Closed(t[1..]) + y);
      ClosedUnique(s[1..], t[1..], x, y);
      assert s == [s[0]] + s[1..] && t == [t[0]] + t[1..];
    }
  }

  lemma QuoteUnique(s: string, t: string, x: string, y: string)
    requires Quote(s) + x == Quote(t) + y
    ensures s == t && x == y
  {
    Assoc("\"", Escape(s), "\"");
    Assoc("\"", Escape(t), "\"");
    Assoc("\"", Closed(s), x);
    Assoc("\"", Closed(t), y);
    Cancel("\"", Closed(s) + x, "\"", Closed(t) + y);
    ClosedUnique(s, t, x, y);
  }

  // ------------------------------------------------------------------ unique readability: numbers

  lemma DigitsUnique(a: string, b: string, x: string, y: string)
    requires (forall i :: 0 <= i < |a| ==> IsDigit(a[i])) && (forall i :: 0 <= i < |b| ==> IsDigit(b[i]))
    requires Follows(x) && Follows(y) && a + x == b + y
    ensures a == b && x == y
  {
    var p, q := a + x, b + y;
    assert forall i :: 0 <= i < |a| ==> p[i] == a[i];
    assert forall i :: 0 <= i < |b| ==> q[i] == b[i];
    assert |a| < |p| ==> p[|a|] == x[0];
    assert |b| < |q| ==> q[|b|] == y[0];
    assert |a| == |b|;
    assert a == p[..|a|] && b == q[..|b|] && x == p[|a|..] && y == q[|b|..];
  }

  function Magnitude(n: int): nat { if n < 0 then -n else n }

  lemma IntTextHead(n: int, x: string)
    ensures IntText(n) != []
    ensures (IntText(n) + x)[0] == '-' <==> n < 0
    ensures n < 0 ==> (IntText(n) + x)[1..] == Decimal(Magnitude(n)) + x
    ensures n >= 0 ==> IsDigit(IntText(n)[0]) && IntText(n) == Decimal(Magnitude(n))
  {
    var d := Decimal(Magnitude(n));
    assert IsDigit(d[0]);
    if n < 0 { assert IntText(n) + x == "-" + (d + x); }
  }

  lemma IntTextUnique(m: int, n: int, x: string, y: string)
    requires Follows(x) && Follows(y) && IntText(m) + x == IntText(n) + y
    ensures m == n && x == y
  {
    IntTextHead(m, x);
    IntTextHead(n, y);
    DigitsUnique(Decimal(Magnitude(m)), Decimal(Magnitude(n)), x, y);
    DecimalInjective(Magnitude(m), Magnitude(n));
  }

  // ------------------------------------------------------------------ unique readability: values

  /** The kind of a value shows in the first character of its text. */
  function Kind(c: char): nat {
    if c == 'n' then 0 else if c == 't' then 1 else if c == 'f' then 2
    else if c == '-' || IsDigit(c) then 3 else if c == '"' then 4 else if c == '[' then 5 else if c == '{' then 6 else 7
  }

  function KindOf(v: Js): nat {
    match v
    case Undefined => 0
    case Null => 0
    case Bool(b) => if b then 1 else 2
    case Int(_) => 3
    case Str(_) => 4
    case Arr(_) => 5
    case Obj(_) => 6
  }

  lemma TextHead(v: Js)
    ensures Text(v) != [] && Kind(Text(v)[0]) == KindOf(v)
  {
    if v.Int? { IntTextHead(v.n, []); assert IntText(v.n) + [] == IntText(v.n); }
  }

  lemma {:induction false} TextUnique(a: Js, b: Js, x: string, y: string)
    requires Defined(a) && Defined(b) && Follows(x) && Follows(y)
    requires Text(a) + x == Text(b) + y
    ensures a == b && x == y
    decreases a, 1
  {
    TextHead(a);
    TextHead(b);
    SameFirst(Text(a), x, Text(b), y);
    assert KindOf(a) == KindOf(b);
    match a
    case Null => Cancel(Text(a), x, Text(b), y);
    case Bool(_) => Cancel(Text(a), x, Text(b), y);
    case Int(m) => IntTextUnique(m, b.n, x, y);
    case Str(s) => QuoteUnique(s, b.s, x, y);
    case Arr(items) =>
      Assoc("[", ItemsText(items), x);
      Assoc("[", ItemsText(b.items), y);
      Cancel("[", ItemsText(items) + x, "[", ItemsText(b.items) + y);
      ItemsUnique(items, b.items, x, y);
    case Obj(fields) =>
      Assoc("{", FieldsText(fields), x);
      Assoc("{", FieldsText(b.fields), y);
      Cancel("{", FieldsText(fields) + x, "{", FieldsText(b.fields) + y);
      FieldsUnique(fields, b.fields, x, y);
  }

  /** What comes after the first item. */
  function ItemsRest(items: seq<Js>): (rest: string)
    requires items != []
    ensures rest != [] && Follows(rest)
    ensures rest[0] == ']' <==> |items| == 1
  {
    if |items| == 1 then "]" else "," + ItemsText(items[1..])
  }

  lemma ItemsHead(items: seq<Js>)
    ensures ItemsText(items) != [] && (items == [] <==> ItemsText(items)[0] == ']')
    ensures items != [] ==> ItemsText(items) == Text(items[0]) + ItemsRest(items)
  {
    if items != [] { TextHead(items[0]); }
  }

  lemma ItemsSplit(items: seq<Js>, x: string)
    requires items != []
    ensures ItemsText(items) + x == Text(items[0]) + (ItemsRest(items) + x)
    ensures |items| > 1 ==> ItemsRest(items) + x == "," + (ItemsText(items[1..]) + x)
  {
    ItemsHead(items);
    Assoc(Text(items[0]), ItemsRest(items), x);
    if |items| > 1 { Assoc(",", ItemsText(items[1..]), x); }
  }

  lemma {:induction false} ItemsUnique(a: seq<Js>, b: seq<Js>, x: string, y: string)
    requires Defined(Arr(a)) && Defined(Arr(b))
    requires ItemsText(a) + x == ItemsText(b) + y
    ensures a == b && x == y
    decreases a, 0
  {
    ItemsHead(a);
    ItemsHead(b);
    SameFirst(ItemsText(a), x, ItemsText(b), y);
    if a == [] {
      Cancel(ItemsText(a), x, ItemsText(b), y);
    } else {
      var r, t := ItemsRest(a), ItemsRest(b);
      ItemsSplit(a, x);
      ItemsSplit(b, y);
      TextUnique(a[0], b[0], r + x, t + y);
      SameFirst(r, x, t, y);
      if |a| == 1 {
        Cancel(r, x, t, y);
      } else {
        Cancel(",", ItemsText(a[1..]) + x, ",", ItemsText(b[1..]) + y);
        ItemsUnique(a[1..], b[1..], x, y);
      }
      assert a == [a[0]] + a[1..] && b == [b[0]] + b[1..];
    }
  }

  function FieldText(f: Field): string { Quote(f.key) + ":" + Text(f.val) }

  lemma {:induction false} FieldUnique(f: Field, g: Field, x: string, y: string)
    requires Defined(f.val) && Defined(g.val) && Follows(x) && Follows(y)
    requires FieldText(f) + x == FieldText(g) + y
    ensures f == g && x == y
    decreases f, 2
  {
    FieldSplit(f, x);
    FieldSplit(g, y);
    QuoteUnique(f.key, g.key, ":" + (Text(f.val) + x), ":" + (Text(g.val) + y));
    Cancel(":", Text(f.val) + x, ":", Text(g.val) + y);
    TextUnique(f.val, g.val, x, y);
  }

  lemma FieldSplit(f: Field, x: string)
    ensures FieldText(f) + x == Quote(f.key) + (":" + (Text(f.val) + x))
  {
    var k, v := Quote(f.key), Text(f.val);
    Assoc(k, ":", v);
    Assoc(k, ":" + v, x);
    Assoc(":", v, x);
  }

  function FieldsRest(fields: seq<Field>): (rest: string)
    requires fields != []
    ensures rest != [] && Follows(rest)
    ensures rest[0] == '}' <==> |fields| == 1
  {
    if |fields| == 1 then "}" else "," + FieldsText(fields[1..])
  }

  lemma FieldsHead(fields: seq<Field>)
    ensures FieldsText(fields) != [] && (fields == [] <==> FieldsText(fields)[0] == '}')
    ensures fields != [] ==> FieldsText(fields) == FieldText(fields[0]) + FieldsRest(fields)
  {
    if fields != [] { assert Quote(fields[0].key)[0] == '"'; }
  }

  lemma {:induction false} FieldsUnique(a: seq<Field>, b: seq<Field>, x: string, y: string)
    requires Defined(Obj(a)) && Defined(Obj(b))
    requires FieldsText(a) + x == FieldsText(b) + y
    ensures a == b && x == y
    decreases a, 0
  {
    FieldsHead(a);
    FieldsHead(b);
    SameFirst(FieldsText(a), x, FieldsText(b), y);
    if a == [] {
      Cancel(FieldsText(a), x, FieldsText(b), y);
    } else {
      var r, t := FieldsRest(a), FieldsRest(b);
      Assoc(FieldText(a[0]), r, x);
      Assoc(FieldText(b[0]), t, y);
      FieldUnique(a[0], b[0], r + x, t + y);
      SameFirst(r, x, t, y);
      if |a| == 1 {
        Cancel(r, x, t, y);
      } else {
        Assoc(",", FieldsText(a[1..]), x);
        Assoc(",", FieldsText(b[1..]), y);
        Cancel(",", FieldsText(a[1..]) + x, ",", FieldsText(b[1..]) + y);
        FieldsUnique(a[1..], b[1..], x, y);
      }
      assert a == [a[0]] + a[1..] && b == [b[0]] + b[1..];
    }
  }

  // ------------------------------------------------------------------ the canonical text

  function StableStringify(v: Js): string { Text(Normalize(v)) }

  /** Two inputs are hashed from the same text exactly when they agree: up to key order, undefined and
      "__proto__" fields, and undefined, null and request-like objects being one and the same. */
  lemma SameTextIffSame(a: Js, b: Js)
    requires WellFormed(a) && WellFormed(b)
    ensures StableStringify(a) == StableStringify(b) <==> Same(a, b)
  {
    NormalFormsDecide(a, b);
    NormalFormAgrees(a);
    NormalFormAgrees(b);
    if StableStringify(a) == StableStringify(b) {
      TextUnique(Normalize(a), Normalize(b), [], []);
    }
  }

  /** Two different inputs with one text: only one of them has an own "__proto__" property. */
  lemma ProtoFieldsCollide(v: Js, rest: seq<Field>)
    requires WellFormed(Obj([Field("__proto__", v)] + rest))
    ensures Obj([Field("__proto__", v)] + rest) != Obj(rest)
    ensures StableStringify(Obj([Field("__proto__", v)] + rest)) == StableStringify(Obj(rest))
  {
    var fields := [Field("__proto__", v)] + rest;
    assert fields[1..] == rest;
    assert fields[0] == Field("__proto__", v) && !Kept(fields[0]);
    assert NormalizeFields(fields) == NormalizeFields(rest);
    ProtoIsNoRequest(v, rest);
    assert |Obj(fields).fields| != |Obj(rest).fields|;
  }

  lemma ProtoIsNoRequest(v: Js, rest: seq<Field>)
    ensures RequestLike([Field("__proto__", v)] + rest) <==> RequestLike(rest)
  {
    var fields := [Field("__proto__", v)] + rest;
    assert fields[0].key == "__proto__";
    assert forall i :: 0 <= i < |rest| ==> fields[i + 1] == rest[i];
    assert forall i :: 0 < i < |fields| ==> fields[i] == rest[i - 1];
  }

  // ------------------------------------------------------------------ what counts in a text, case by case

  /** Own keys "headers" and "method", whatever else there is, make an object's text "null". */
  lemma RequestIsNull(fields: seq<Field>, a: nat, b: nat)
    requires a < |fields| && fields[a].key == "headers" && b < |fields| && fields[b].key == "method"
    ensures StableStringify(Obj(fields)) == "null"
  {
  }

  ghost predicate IsRequest(fields: seq<Field>) {
    && (exists a :: 0 <= a < |fields| && fields[a].key == "headers")
    && (exists b :: 0 <= b < |fields| && fields[b].key == "method")
  }

  /** A text is "null" exactly for undefined, null and request-like objects. */
  lemma NullTextIff(v: Js)
    requires WellFormed(v)
    ensures StableStringify(v) == "null" <==> v.Undefined? || v.Null? || (v.Obj? && IsRequest(v.fields))
  {
    SameTextIffSame(v, Null);
    assert StableStringify(Null) == "null";
  }

  /** Booleans, integers and strings share a text only when they are equal. */
  lemma ScalarsCount(a: Js, b: Js)
    requires (a.Bool? || a.Int? || a.Str?) && (b.Bool? || b.Int? || b.Str?)
    ensures StableStringify(a) == StableStringify(b) <==> a == b
  {
    SameTextIffSame(a, b);
  }

  /** Arrays share a text exactly when they are as long and their items do, place by place. */
  lemma ItemsCount(a: seq<Js>, b: seq<Js>)
    requires WellFormed(Arr(a)) && WellFormed(Arr(b))
    ensures StableStringify(Arr(a)) == StableStringify(Arr(b))
            <==> |a| == |b| && forall i :: 0 <= i < |a| ==> StableStringify(a[i]) == StableStringify(b[i])
  {
    SameTextIffSame(Arr(a), Arr(b));
    forall i | 0 <= i < |a| && i < |b|
      ensures StableStringify(a[i]) == StableStringify(b[i]) <==> Same(a[i], b[i])
    {
      SameTextIffSame(a[i], b[i]);
    }
  }

  /** Every field counts: changing one field's value changes the object's text exactly when the field appears or
      disappears, or its value's text changes. No key is exempt but "__proto__". */
  lemma FieldCounts(fields: seq<Field>, i: nat, k: string, v: Js, w: Js)
    requires i < |fields| && k != "__proto__" && !IsRequest(fields[i := Field(k, v)])
    requires WellFormed(Obj(fields[i := Field(k, v)])) && WellFormed(Obj(fields[i := Field(k, w)]))
    ensures StableStringify(Obj(fields[i := Field(k, v)])) == StableStringify(Obj(fields[i := Field(k, w)]))
            <==> (v.Undefined? <==> w.Undefined?) && StableStringify(v) == StableStringify(w)
  {
    var a, b := fields[i := Field(k, v)], fields[i := Field(k, w)];
    assert a[i] == Field(k, v) && b[i] == Field(k, w);
    SameTextIffSame(Obj(a), Obj(b));
    SameTextIffSame(v, w);
    assert forall j :: 0 <= j < |a| ==> a[j].key == b[j].key;
    assert !NullLike(Obj(a)) && !NullLike(Obj(b));
    if Same(Obj(a), Obj(b)) {
      FieldFound(a, b, i);
    }
    if (v.Undefined? <==> w.Undefined?) && Same(v, w) {
      OthersAgree(a, b, i);
    }
  }

  /** If the objects agree, so do their i-th fields, which have the same key. */
  lemma FieldFound(a: seq<Field>, b: seq<Field>, i: nat)
    requires |a| == |b| && i < |a| && DistinctKeys(a) && DistinctKeys(b) && a[i].key == b[i].key && a[i].key != "__proto__"
    requires !NullLike(Obj(a)) && !NullLike(Obj(b)) && Same(Obj(a), Obj(b))
    ensures (a[i].val.Undefined? <==> b[i].val.Undefined?) && Same(a[i].val, b[i].val)
  {
    if Counts(a[i]) {
      assert Found(a[i], b);
      var j :| 0 <= j < |b| && Counts(b[j]) && b[j].key == a[i].key && Same(a[i].val, b[j].val);
      assert j == i;
    }
    if Counts(b[i]) {
      assert KeyKept(b[i].key, a);
      var j :| 0 <= j < |a| && Counts(a[j]) && a[j].key == b[i].key;
      assert j == i;
    }
  }

  /** If the i-th fields agree and the others are the same, so do the objects. */
  lemma OthersAgree(a: seq<Field>, b: seq<Field>, i: nat)
    requires |a| == |b| && i < |a| && (forall j :: 0 <= j < |a| && j != i ==> a[j] == b[j]) && a[i].key == b[i].key
    requires !NullLike(Obj(a)) && !NullLike(Obj(b)) && WellFormed(Obj(a))
    requires (a[i].val.Undefined? <==> b[i].val.Undefined?) && Same(a[i].val, b[i].val)
    ensures Same(Obj(a), Obj(b))
  {
    forall j | 0 <= j < |a| && Counts(a[j])
      ensures Found(a[j], b)
    {
      if j != i {
        SameTextIffSame(a[j].val, a[j].val);
        assert b[j] == a[j];
      }
      assert Counts(b[j]) && b[j].key == a[j].key && Same(a[j].val, b[j].val);
    }
    forall j | 0 <= j < |b| && Counts(b[j])
      ensures KeyKept(b[j].key, a)
    {
      assert Counts(a[j]) && a[j].key == b[j].key;
    }
  }

  /** The order in which an object lists its fields never counts. */
  lemma OrderNeverCounts(a: seq<Field>, b: seq<Field>)
    requires WellFormed(Obj(a)) && WellFormed(Obj(b)) && forall f :: f in a <==> f in b
    ensures StableStringify(Obj(a)) == StableStringify(Obj(b))
  {
    SameTextIffSame(Obj(a), Obj(b));
    assert forall i :: 0 <= i < |a| ==> a[i] in a;
    assert forall i :: 0 <= i < |b| ==> b[i] in b;
    forall i | 0 <= i < |a| && Counts(a[i])
      ensures Found(a[i], b)
    {
      SameTextIffSame(a[i].val, a[i].val);
      var j :| 0 <= j < |b| && b[j] == a[i];
      assert Counts(b[j]);
    }
    forall j | 0 <= j < |b| && Counts(b[j])
      ensures KeyKept(b[j].key, a)
    {
      var i :| 0 <= i < |a| && a[i] == b[j];
      assert Counts(a[i]);
    }
    SameKeys(a, b, "headers");
    SameKeys(b, a, "headers");
    SameKeys(a, b, "method");
    SameKeys(b, a, "method");
  }

  lemma SameKeys(a: seq<Field>, b: seq<Field>, k: string)
    requires forall f :: f in a ==> f in b
    ensures (exists i :: 0 <= i < |a| && a[i].key == k) ==> exists j :: 0 <= j < |b| && b[j].key == k
  {
    if i :| 0 <= i < |a| && a[i].key == k {
      assert a[i] in b;
      var j :| 0 <= j < |b| && b[j] == a[i];
    }
  }
}
