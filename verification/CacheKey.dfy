/** The query-cache key of a statement and its parameters, and why two statements never share
    one.  Integer, timestamp and IEEE-754 payloads are the integers whose decimal text the
    key holds; a double is its 64-bit pattern. */
module CacheKey {
  import opened Text

  datatype NumberKind = Signed | Unsigned | Double | Timestamp

  datatype TextKind =
    String | Decimal | Date | Time | Uuid | Json | YearMonth | DaySecond | Blob

  datatype Value =
    | Null
    | Bool(b: bool)
    | Number(number: NumberKind, i: int)
    | Bytes(text: TextKind, s: string)
    | Array(items: seq<Value>)
    | Composite(fields: seq<Field>)
    | TypedArray(typeName: string, items: seq<Value>)
    | TypedComposite(typeName: string, fields: seq<Field>)

  datatype Field = Field(name: string, value: Value)

  const RS := '\U{1E}'
  const US := '\U{1F}'

  function NumberLetter(k: NumberKind): char {
    match k
    case Signed => 'i'
    case Unsigned => 'u'
    case Double => 'd'
    case Timestamp => 't'
  }

  function TextLetter(k: TextKind): char {
    match k
    case String => 's'
    case Decimal => 'm'
    case Date => 'a'
    case Time => 'o'
    case Uuid => 'g'
    case YearMonth => 'y'
    case DaySecond => 'v'
    case Json => 'j'
    case Blob => 'x'
  }

  function Letter(v: Value): char {
    match v
    case Null => 'n'
    case Bool(_) => 'b'
    case Number(k, _) => NumberLetter(k)
    case Bytes(k, _) => TextLetter(k)
    case Array(_) => 'A'
    case Composite(_) => 'C'
    case TypedArray(_, _) => 'Y'
    case TypedComposite(_, _) => 'O'
  }

  // ----- The encoding -----

  function Sized(s: string): string { Digits(|s|) + ":" + s }

  /** What follows the tag letter. */
  function Body(v: Value): string
    decreases v, 0
  {
    match v
    case Null => ""
    case Bool(b) => if b then "1" else "0"
    case Number(_, i) => Text.Decimal(i)
    case Bytes(_, s) => Sized(s)
    case Array(items) => Digits(|items|) + ItemKeys(items, [US])
    case Composite(fields) => Digits(|fields|) + FieldKeys(fields, true)
    case TypedArray(name, items) => name + Digits(|items|) + ItemKeys(items, [])
    case TypedComposite(name, fields) => name + Digits(|fields|) + FieldKeys(fields, false)
  }

  function Key(v: Value): string
    decreases v, 1
  {
    [Letter(v)] + Body(v)
  }

  function ItemKeys(items: seq<Value>, separator: string): string
    decreases items, 0
  {
    if items == [] then [] else separator + Key(items[0]) + ItemKeys(items[1..], separator)
  }

  function FieldKey(f: Field, delimited: bool): string
    decreases f, 0
  {
    if delimited then [US] + Sized(f.name) + Key(f.value) else f.name + Key(f.value)
  }

  function FieldKeys(fields: seq<Field>, delimited: bool): string
    decreases fields, 0
  {
    if fields == [] then [] else FieldKey(fields[0], delimited) + FieldKeys(fields[1..], delimited)
  }

  function StatementKey(sql: string, params: seq<Value>): string {
    sql + [RS] + Digits(|params|) + ItemKeys(params, [US])
  }

  // ----- The code, which appends to one string -----

  method AppendValueKey(v: Value, key: string) returns (out: string)
    ensures out == key + Key(v)
    decreases v, 1
  {
    Assoc(key, [Letter(v)], Body(v));
    out := AppendBody(v, key + [Letter(v)]);
  }

  method AppendBody(v: Value, key: string) returns (out: string)
    ensures out == key + Body(v)
    decreases v, 0
  {
    out := key;
    match v {
      case Null => assert key + "" == key;
      case Bool(b) => out := out + if b then "1" else "0";
      case Number(_, i) => out := out + Text.Decimal(i);
      case Bytes(_, s) => out := AppendSized(s, out);
      case Array(items) =>
        out := AppendItems(items, [US], out + Digits(|items|));
        Assoc(key, Digits(|items|), ItemKeys(items, [US]));
      case Composite(fields) =>
        out := AppendFields(fields, true, out + Digits(|fields|));
        Assoc(key, Digits(|fields|), FieldKeys(fields, true));
      case TypedArray(name, items) =>
        out := AppendItems(items, [], out + name + Digits(|items|));
        Assoc(key, name, Digits(|items|));
        Assoc(key, name + Digits(|items|), ItemKeys(items, []));
      case TypedComposite(name, fields) =>
        out := AppendFields(fields, false, out + name + Digits(|fields|));
        Assoc(key, name, Digits(|fields|));
        Assoc(key, name + Digits(|fields|), FieldKeys(fields, false));
    }
  }

  method AppendSized(s: string, key: string) returns (out: string)
    ensures out == key + Sized(s)
  {
    out := key + Digits(|s|);
    out := out + ":";
    out := out + s;
  }

  method AppendItems(items: seq<Value>, separator: string, key: string) returns (out: string)
    ensures out == key + ItemKeys(items, separator)
    decreases items, 0
  {
    out := key;
    for i := 0 to |items|
      invariant out + ItemKeys(items[i..], separator) == key + ItemKeys(items, separator)
    {
      assert items[i..][1..] == items[i + 1..];
      Assoc(out, separator, Key(items[i]));
      Assoc(out, separator + Key(items[i]), ItemKeys(items[i + 1..], separator));
      out := AppendValueKey(items[i], out + separator);
    }
  }

  method AppendField(f: Field, delimited: bool, key: string) returns (out: string)
    ensures out == key + FieldKey(f, delimited)
    decreases f, 0
  {
    if delimited {
      out := AppendSized(f.name, key + [US]);
      Assoc(key, [US], Sized(f.name));
      out := AppendValueKey(f.value, out);
      Assoc(key, [US] + Sized(f.name), Key(f.value));
    } else {
      out := AppendValueKey(f.value, key + f.name);
      Assoc(key, f.name, Key(f.value));
    }
  }

  method AppendFields(fields: seq<Field>, delimited: bool, key: string) returns (out: string)
    ensures out == key + FieldKeys(fields, delimited)
    decreases fields, 0
  {
    out := key;
    for i := 0 to |fields|
      invariant out + FieldKeys(fields[i..], delimited) == key + FieldKeys(fields, delimited)
    {
      assert fields[i..][1..] == fields[i + 1..];
      Assoc(out, FieldKey(fields[i], delimited), FieldKeys(fields[i + 1..], delimited));
      out := AppendField(fields[i], delimited, out);
    }
  }

  method MakeKey(sql: string, params: seq<Value>) returns (key: string)
    ensures key == StatementKey(sql, params)
  {
    key := sql + [RS];
    key := key + Digits(|params|);
    key := AppendItems(params, [US], key);
  }

  // ----- Names that can be told apart -----

  /** The names that values use: of typed arrays, of typed composites, and of their fields. */
  datatype Names = Names(arrays: set<string>, composites: set<string>, fields: set<string>)

  predicate StartsLike(s: string, t: string) { |s| < |t| && t[..|s|] == s }

  /** `t` goes on with a digit where `s` ends. */
  predicate DigitAfter(s: string, t: string) { StartsLike(s, t) && IsDigit(t[|s|]) }

  predicate IsTag(c: char) {
    c in {'n', 'b', 'i', 'u', 'd', 't', 's', 'm', 'a', 'o', 'g', 'y', 'v', 'j', 'x', 'A', 'C', 'Y', 'O'}
  }

  /** What every payload starts with, but that of a null or a typed value. */
  predicate IsNumeric(c: char) { IsDigit(c) || c == '-' }

  /** `t` goes on like a value's key where `s` ends: with the tag of a null or of a typed value,
      or with another tag and the start of a number. */
  predicate KeyAfter(s: string, t: string) {
    && StartsLike(s, t)
    && (t[|s|] in {'n', 'Y', 'O'} || (IsTag(t[|s|]) && |s| + 1 < |t| && IsNumeric(t[|s| + 1])))
  }

  /** No type name goes on with a digit where another ends; no field name starts with a digit,
      or goes on like a key where another ends. */
  ghost predicate Apart(names: Names) {
    && (forall s, t | s in names.arrays && t in names.arrays :: !DigitAfter(s, t))
    && (forall s, t | s in names.composites && t in names.composites :: !DigitAfter(s, t))
    && (forall s | s in names.fields :: NonDigitStart(s))
    && (forall s, t | s in names.fields && t in names.fields :: !KeyAfter(s, t))
  }

  /** Every type name inside, and every field name of a typed composite inside, is listed. */
  predicate Uses(v: Value, names: Names)
    decreases v, 1
  {
    match v
    case Array(items) => AllUse(items, names)
    case Composite(fields) => FieldsUse(fields, true, names)
    case TypedArray(name, items) => name in names.arrays && AllUse(items, names)
    case TypedComposite(name, fields) => name in names.composites && FieldsUse(fields, false, names)
    case _ => true
  }

  predicate AllUse(items: seq<Value>, names: Names)
    decreases items, 0
  {
    forall v | v in items :: Uses(v, names)
  }

  predicate FieldUses(f: Field, delimited: bool, names: Names)
    decreases f, 0
  {
    (delimited || f.name in names.fields) && Uses(f.value, names)
  }

  predicate FieldsUse(fields: seq<Field>, delimited: bool, names: Names)
    decreases fields, 0
  {
    forall f | f in fields :: FieldUses(f, delimited, names)
  }

  /** Names of which none starts with a digit or starts like another are apart. */
  lemma PrefixFreeApart(names: Names)
    requires forall s, t | s in names.arrays && t in names.arrays :: !StartsLike(s, t)
    requires forall s, t | s in names.composites && t in names.composites :: !StartsLike(s, t)
    requires forall s, t | s in names.fields && t in names.fields :: !StartsLike(s, t)
    requires forall s | s in names.fields :: NonDigitStart(s)
    ensures Apart(names)
  {
    assert forall s, t :: DigitAfter(s, t) || KeyAfter(s, t) ==> StartsLike(s, t);
  }

  // ----- Unique decoding -----

  lemma LetterKind(v: Value, w: Value)
    requires Letter(v) == Letter(w)
    ensures v.Null? <==> w.Null?
    ensures v.Bool? <==> w.Bool?
    ensures v.Number? <==> w.Number?
    ensures v.Bytes? <==> w.Bytes?
    ensures v.Array? <==> w.Array?
    ensures v.Composite? <==> w.Composite?
    ensures v.TypedArray? <==> w.TypedArray?
    ensures v.Number? ==> v.number == w.number
    ensures v.Bytes? ==> v.text == w.text
  {
  }

  lemma SizedUnique(s: string, t: string, x: string, y: string)
    requires Sized(s) + x == Sized(t) + y
    ensures s == t && x == y
  {
    assert Sized(s) + x == Digits(|s|) + (":" + (s + x));
    assert Sized(t) + y == Digits(|t|) + (":" + (t + y));
    DigitsUnique(|s|, |t|, ":" + (s + x), ":" + (t + y));
    CancelHead(":", s + x, t + y);
    Cancel(s, t, x, y);
  }

  /** Of two starts of the same text, the longer goes on where the shorter ends with what
      follows the shorter. */
  lemma Overhang(s: string, t: string, x: string, y: string)
    requires s + x == t + y && |s| < |t|
    ensures x != [] && StartsLike(s, t) && t[|s|] == x[0]
  {
    Overlap(s, t, x, y);
    assert x[0] == t[|s|..][0];
  }

  /** A type name followed by a numeral can be read back in one way only. */
  lemma NameUnique(s: string, t: string, x: string, y: string)
    requires !DigitAfter(s, t) && !DigitAfter(t, s)
    requires x != [] && IsDigit(x[0]) && y != [] && IsDigit(y[0])
    requires s + x == t + y
    ensures s == t && x == y
  {
    if |s| < |t| {
      Overhang(s, t, x, y);
    } else if |t| < |s| {
      Overhang(t, s, y, x);
    }
    Cancel(s, t, x, y);
  }

  lemma KeyTag(v: Value, x: string)
    ensures (Key(v) + x)[0] == Letter(v) && IsTag(Letter(v)) && !IsNumeric(Letter(v))
  {
  }

  lemma PayloadStart(v: Value, x: string)
    requires !v.Null? && !v.TypedArray? && !v.TypedComposite?
    ensures |Key(v) + x| > 1 && IsNumeric((Key(v) + x)[1])
  {
    match v
    case Bool(_) =>
    case Number(_, i) => DigitsValue(Magnitude(i));
    case Bytes(_, s) => DigitsValue(|s|);
    case Array(items) => DigitsValue(|items|);
    case Composite(fields) => DigitsValue(|fields|);
  }

  /** The character at the end of `t`, or one before it. */
  lemma AtEnd(t: string, l: string, i: nat)
    requires i <= |t| && l != []
    ensures (t + l)[i] == if i < |t| then t[i] else l[0]
  {
  }

  /** If a field name and a value's key start like a longer name and a key, the longer name goes
      on like a key. */
  lemma KeyOverhang(s: string, t: string, v: Value, w: Value, x: string, y: string)
    requires s + (Key(v) + x) == t + (Key(w) + y) && |s| < |t|
    ensures KeyAfter(s, t)
  {
    var k, l := Key(v) + x, Key(w) + y;
    Overhang(s, t, k, l);
    KeyTag(v, x);
    if t[|s|] !in {'n', 'Y', 'O'} {
      PayloadStart(v, x);
      KeyTag(w, y);
      AtEnd(t, l, |s| + 1);
      assert (s + k)[|s| + 1] == k[1];
    }
  }

  /** A field name followed by a value's key can be read back in one way only. */
  lemma FieldNameUnique(s: string, t: string, v: Value, w: Value, x: string, y: string)
    requires !KeyAfter(s, t) && !KeyAfter(t, s)
    requires s + (Key(v) + x) == t + (Key(w) + y)
    ensures s == t && Key(v) + x == Key(w) + y
  {
    if |s| < |t| {
      KeyOverhang(s, t, v, w, x, y);
    } else if |t| < |s| {
      KeyOverhang(t, s, w, v, y, x);
    }
    Cancel(s, t, Key(v) + x, Key(w) + y);
  }

  /** A value's key can be read back in one way only, whatever else follows. */
  lemma {:induction false} KeyUnique(v: Value, w: Value, x: string, y: string, names: Names)
    requires Apart(names) && Uses(v, names) && Uses(w, names)
    requires Key(v) + x == Key(w) + y && NonDigitStart(x) && NonDigitStart(y)
    ensures v == w && x == y
    decreases v, 1
  {
    KeyTag(v, x);
    KeyTag(w, y);
    Assoc([Letter(v)], Body(v), x);
    Assoc([Letter(w)], Body(w), y);
    CancelHead([Letter(v)], Body(v) + x, Body(w) + y);
    LetterKind(v, w);
    BodyUnique(v, w, x, y, names);
  }

  lemma {:induction false} BodyUnique(v: Value, w: Value, x: string, y: string, names: Names)
    requires Apart(names) && Uses(v, names) && Uses(w, names) && Letter(v) == Letter(w)
    requires Body(v) + x == Body(w) + y && NonDigitStart(x) && NonDigitStart(y)
    ensures v == w && x == y
    decreases v, 0
  {
    LetterKind(v, w);
    match v
    case Null => assert Body(v) + x == x && Body(w) + y == y;
    case Bool(b) => Cancel(Body(v), Body(w), x, y);
    case Number(_, i) => DecimalUnique(i, w.i, x, y);
    case Bytes(_, s) => SizedUnique(s, w.s, x, y);
    case Array(items) => CountedItems(items, w.items, [US], x, y, names);
    case Composite(fields) => CountedFields(fields, w.fields, true, x, y, names);
    case TypedArray(name, items) =>
      NamedUnique(name, w.typeName, |items|, |w.items|, ItemKeys(items, []), ItemKeys(w.items, []), x, y);
      CountedItems(items, w.items, [], x, y, names);
    case TypedComposite(name, fields) =>
      NamedUnique(name, w.typeName, |fields|, |w.fields|, FieldKeys(fields, false), FieldKeys(w.fields, false), x, y);
      CountedFields(fields, w.fields, false, x, y, names);
  }

  /** A type name, a count and what the count announces. */
  lemma NamedUnique(s: string, t: string, m: nat, n: nat, a: string, b: string, x: string, y: string)
    requires !DigitAfter(s, t) && !DigitAfter(t, s)
    requires s + Digits(m) + a + x == t + Digits(n) + b + y
    ensures s == t && Digits(m) + a + x == Digits(n) + b + y
  {
    var p, q := Digits(m) + a + x, Digits(n) + b + y;
    Assoc(s, Digits(m), a);
    Assoc(s, Digits(m) + a, x);
    Assoc(t, Digits(n), b);
    Assoc(t, Digits(n) + b, y);
    DigitsValue(m);
    DigitsValue(n);
    assert p[0] == Digits(m)[0] && q[0] == Digits(n)[0];
    NameUnique(s, t, p, q);
  }

  predicate Separator(s: string) { s == [US] || s == [] }

  lemma ItemsStart(items: seq<Value>, separator: string, x: string)
    requires NonDigitStart(x) && Separator(separator)
    ensures NonDigitStart(ItemKeys(items, separator) + x)
  {
    if items == [] {
      assert ItemKeys(items, separator) + x == x;
    } else {
      ItemsUnroll(items, separator, x);
      KeyStart(items[0], separator, ItemKeys(items[1..], separator) + x);
    }
  }

  lemma KeyStart(v: Value, separator: string, x: string)
    requires Separator(separator)
    ensures NonDigitStart(separator + (Key(v) + x))
  {
    var t := separator + (Key(v) + x);
    assert t[0] == if separator == [] then Letter(v) else US;
  }

  lemma ItemsUnroll(items: seq<Value>, separator: string, x: string)
    requires items != []
    ensures ItemKeys(items, separator) + x
            == separator + (Key(items[0]) + (ItemKeys(items[1..], separator) + x))
  {
    var k, rest := Key(items[0]), ItemKeys(items[1..], separator);
    Assoc(separator, k, rest);
    Assoc(separator, k + rest, x);
    Assoc(k, rest, x);
  }

  lemma CountsUnique(m: nat, n: nat, s: string, t: string, x: string, y: string)
    requires Digits(m) + s + x == Digits(n) + t + y
    requires NonDigitStart(s + x) && NonDigitStart(t + y)
    ensures m == n && s + x == t + y
  {
    Assoc(Digits(m), s, x);
    Assoc(Digits(n), t, y);
    DigitsUnique(m, n, s + x, t + y);
  }

  lemma {:induction false} CountedItems(a: seq<Value>, b: seq<Value>, separator: string, x: string, y: string,
                                        names: Names)
    requires Separator(separator) && Apart(names) && AllUse(a, names) && AllUse(b, names)
    requires Digits(|a|) + ItemKeys(a, separator) + x == Digits(|b|) + ItemKeys(b, separator) + y
    requires NonDigitStart(x) && NonDigitStart(y)
    ensures a == b && x == y
    decreases a, 1
  {
    ItemsStart(a, separator, x);
    ItemsStart(b, separator, y);
    CountsUnique(|a|, |b|, ItemKeys(a, separator), ItemKeys(b, separator), x, y);
    ItemsUnique(a, b, separator, x, y, names);
  }

  lemma {:induction false} ItemsUnique(a: seq<Value>, b: seq<Value>, separator: string, x: string, y: string,
                                       names: Names)
    requires |a| == |b| && Separator(separator) && Apart(names) && AllUse(a, names) && AllUse(b, names)
    requires ItemKeys(a, separator) + x == ItemKeys(b, separator) + y
    requires NonDigitStart(x) && NonDigitStart(y)
    ensures a == b && x == y
    decreases a, 0
  {
    if a == [] {
      CancelHead([], x, y);
    } else {
      var p, q := ItemKeys(a[1..], separator) + x, ItemKeys(b[1..], separator) + y;
      ItemsUnroll(a, separator, x);
      ItemsUnroll(b, separator, y);
      CancelHead(separator, Key(a[0]) + p, Key(b[0]) + q);
      ItemsStart(a[1..], separator, x);
      ItemsStart(b[1..], separator, y);
      KeyUnique(a[0], b[0], p, q, names);
      ItemsUnique(a[1..], b[1..], separator, x, y, names);
      assert a == [a[0]] + a[1..] && b == [b[0]] + b[1..];
    }
  }

  lemma FieldsStart(fields: seq<Field>, delimited: bool, x: string, names: Names)
    requires NonDigitStart(x) && Apart(names) && FieldsUse(fields, delimited, names)
    ensures NonDigitStart(FieldKeys(fields, delimited) + x)
  {
    if fields == [] {
      assert FieldKeys(fields, delimited) + x == x;
    } else {
      var f, rest := fields[0], FieldKeys(fields[1..], delimited) + x;
      FieldsUnroll(fields, delimited, x);
      FieldStart(f, delimited, rest, names);
    }
  }

  lemma FieldStart(f: Field, delimited: bool, x: string, names: Names)
    requires Apart(names) && FieldUses(f, delimited, names)
    ensures NonDigitStart(FieldKey(f, delimited) + x)
  {
    var t := FieldKey(f, delimited) + x;
    KeyTag(f.value, []);
    assert t[0] == if delimited then US else if f.name == [] then Letter(f.value) else f.name[0];
  }

  lemma FieldsUnroll(fields: seq<Field>, delimited: bool, x: string)
    requires fields != []
    ensures FieldKeys(fields, delimited) + x
            == FieldKey(fields[0], delimited) + (FieldKeys(fields[1..], delimited) + x)
  {
    Assoc(FieldKey(fields[0], delimited), FieldKeys(fields[1..], delimited), x);
  }

  /** One field: its name is sized, or else told apart from the other names. */
  lemma {:induction false} FieldUnique(f: Field, g: Field, delimited: bool, x: string, y: string, names: Names)
    requires Apart(names) && FieldUses(f, delimited, names) && FieldUses(g, delimited, names)
    requires FieldKey(f, delimited) + x == FieldKey(g, delimited) + y && NonDigitStart(x) && NonDigitStart(y)
    ensures f == g && x == y
    decreases f, 2
  {
    if delimited {
      SizedField(f, x);
      SizedField(g, y);
      CancelHead([US], Sized(f.name) + (Key(f.value) + x), Sized(g.name) + (Key(g.value) + y));
      SizedUnique(f.name, g.name, Key(f.value) + x, Key(g.value) + y);
    } else {
      Assoc(f.name, Key(f.value), x);
      Assoc(g.name, Key(g.value), y);
      FieldNameUnique(f.name, g.name, f.value, g.value, x, y);
    }
    KeyUnique(f.value, g.value, x, y, names);
  }

  lemma SizedField(f: Field, x: string)
    ensures FieldKey(f, true) + x == [US] + (Sized(f.name) + (Key(f.value) + x))
  {
    Assoc([US], Sized(f.name), Key(f.value));
    Assoc([US], Sized(f.name) + Key(f.value), x);
    Assoc(Sized(f.name), Key(f.value), x);
  }

  lemma {:induction false} CountedFields(a: seq<Field>, b: seq<Field>, delimited: bool, x: string, y: string,
                                         names: Names)
    requires Apart(names) && FieldsUse(a, delimited, names) && FieldsUse(b, delimited, names)
    requires Digits(|a|) + FieldKeys(a, delimited) + x == Digits(|b|) + FieldKeys(b, delimited) + y
    requires NonDigitStart(x) && NonDigitStart(y)
    ensures a == b && x == y
    decreases a, 1
  {
    FieldsStart(a, delimited, x, names);
    FieldsStart(b, delimited, y, names);
    CountsUnique(|a|, |b|, FieldKeys(a, delimited), FieldKeys(b, delimited), x, y);
    FieldsUnique(a, b, delimited, x, y, names);
  }

  lemma {:induction false} FieldsUnique(a: seq<Field>, b: seq<Field>, delimited: bool, x: string, y: string,
                                        names: Names)
    requires |a| == |b| && Apart(names) && FieldsUse(a, delimited, names) && FieldsUse(b, delimited, names)
    requires FieldKeys(a, delimited) + x == FieldKeys(b, delimited) + y
    requires NonDigitStart(x) && NonDigitStart(y)
    ensures a == b && x == y
    decreases a, 0
  {
    if a == [] {
      CancelHead([], x, y);
    } else {
      var p, q := FieldKeys(a[1..], delimited) + x, FieldKeys(b[1..], delimited) + y;
      FieldsUnroll(a, delimited, x);
      FieldsUnroll(b, delimited, y);
      FieldsStart(a[1..], delimited, x, names);
      FieldsStart(b[1..], delimited, y, names);
      FieldUnique(a[0], b[0], delimited, p, q, names);
      FieldsUnique(a[1..], b[1..], delimited, x, y, names);
      assert a == [a[0]] + a[1..] && b == [b[0]] + b[1..];
    }
  }

  // ----- The main result -----

  /** `s` goes on with a record separator and a digit where `t` ends. */
  predicate Extends(s: string, t: string) {
    |t| + 1 < |s| && s[..|t|] == t && s[|t|] == RS && IsDigit(s[|t| + 1])
  }

  lemma Heads(s: string, t: string, a: string, b: string)
    requires |s| <= |t| && t[..|s|] == s && [RS] + a == t[|s|..] + ([RS] + b)
    requires a != [] && IsDigit(a[0])
    ensures |s| == |t| || Extends(t, s)
  {
    if |s| < |t| {
      var rest := t[|s|..];
      AtEnd(rest, [RS] + b, 0);
      AtEnd(rest, [RS] + b, 1);
      assert ([RS] + a)[0] == RS && ([RS] + a)[1] == a[0];
    }
  }

  lemma CountStart(params: seq<Value>)
    ensures var a := Digits(|params|) + ItemKeys(params, [US]); a != [] && IsDigit(a[0])
  {
    DigitsValue(|params|);
    assert (Digits(|params|) + ItemKeys(params, [US]))[0] == Digits(|params|)[0];
  }

  /** Two statements have the same key exactly if they are the same statement with the same
      parameters, unless one SQL text goes on with a record separator and a digit where the other ends. */
  lemma StatementKeyInjective(sql1: string, params1: seq<Value>, sql2: string, params2: seq<Value>, names: Names)
    requires Apart(names) && AllUse(params1, names) && AllUse(params2, names)
    requires !Extends(sql1, sql2) && !Extends(sql2, sql1)
    ensures StatementKey(sql1, params1) == StatementKey(sql2, params2)
            <==> sql1 == sql2 && params1 == params2
  {
    if StatementKey(sql1, params1) == StatementKey(sql2, params2) {
      var a := Digits(|params1|) + ItemKeys(params1, [US]);
      var b := Digits(|params2|) + ItemKeys(params2, [US]);
      var k := StatementKey(sql1, params1);
      assert k == sql1 + ([RS] + a) && k == sql2 + ([RS] + b);
      CountStart(params1);
      CountStart(params2);
      if |sql1| <= |sql2| {
        Overlap(sql1, sql2, [RS] + a, [RS] + b);
        Heads(sql1, sql2, a, b);
      } else {
        Overlap(sql2, sql1, [RS] + b, [RS] + a);
        Heads(sql2, sql1, b, a);
      }
      Cancel(sql1, sql2, [RS] + a, [RS] + b);
      CancelHead([RS], a, b);
      assert a + [] == a && b + [] == b;
      CountedItems(params1, params2, [US], [], [], names);
    }
  }

  /** SQL text without the byte 0x1e never continues another with it. */
  lemma PlainSqlSeparates(sql1: string, sql2: string)
    requires RS !in sql1 && RS !in sql2
    ensures !Extends(sql1, sql2) && !Extends(sql2, sql1)
  {
    assert forall s, t :: Extends(s, t) ==> s[|t|] in s;
  }

  // ----- Why the hypotheses are there -----

  /** A type name that takes over the count and the start of the only element: for every value
      whose key ends in a zero, two typed arrays share a key.  One name goes on with a digit
      where the other ends. */
  lemma TypedArrayCollides(name: string, v: Value, start: string)
    requires Key(v) == start + "0"
    ensures DigitAfter(name, name + "1" + start)
    ensures Key(TypedArray(name, [v])) == Key(TypedArray(name + "1" + start, []))
    ensures TypedArray(name, [v]) != TypedArray(name + "1" + start, [])
  {
    assert ItemKeys([], []) == [] && ItemKeys([v], []) == Key(v);
    assert Digits(1) == "1" && Digits(0) == "0";
    assert name + "1" + (start + "0") == name + "1" + start + "0";
  }

  /** Undelimited field names: the same two-field type, two different values, one key.  Each name
      goes on like a key where the empty one ends. */
  lemma TypedCompositeCollides(name: string)
    ensures var v := TypedComposite(name, [Field("b1", Null), Field("", Null)]);
            var w := TypedComposite(name, [Field("", Bool(true)), Field("n", Null)]);
            v != w && Key(v) == Key(w) && KeyAfter("", "b1") && KeyAfter("", "n")
  {
    var a := [Field("b1", Null), Field("", Null)];
    var b := [Field("", Bool(true)), Field("n", Null)];
    assert a[1..] == [Field("", Null)] && b[1..] == [Field("n", Null)];
    assert Key(Null) == "n" && Key(Bool(true)) == "b1";
    assert FieldKeys(a[1..], false) == "n" && FieldKeys(b[1..], false) == "nn";
    assert FieldKeys(a, false) == "b1nn" && FieldKeys(b, false) == "b1nn";
  }

  lemma {:induction false} ItemsAppend(a: seq<Value>, b: seq<Value>)
    ensures ItemKeys(a + b, []) == ItemKeys(a, []) + ItemKeys(b, [])
  {
    if a == [] {
      assert a + b == b;
    } else {
      assert (a + b)[1..] == a[1..] + b;
      ItemsAppend(a[1..], b);
      Assoc([] + Key(a[0]), ItemKeys(a[1..], []), ItemKeys(b, []));
    }
  }

  lemma OneItem(v: Value)
    ensures ItemKeys([v], []) == Key(v)
  {
    assert ItemKeys([v][1..], []) == [];
    assert [] + Key(v) + [] == Key(v);
  }

  /** If one value's key is another's followed by further items, two orders of the same items,
      undelimited in a typed array, share a key. */
  lemma OrdersCollide(parent: string, v: Value, w: Value, rest: seq<Value>)
    requires Key(v) == Key(w) + ItemKeys(rest, []) && v != w
    ensures var a, b := [v] + ([w] + rest), ([w] + rest) + [v];
            a != b && Key(TypedArray(parent, a)) == Key(TypedArray(parent, b))
  {
    var more := [w] + rest;
    OneItem(v);
    OneItem(w);
    ItemsAppend([w], rest);
    ItemsAppend([v], more);
    ItemsAppend(more, [v]);
    assert ItemKeys([v] + more, []) == Key(v) + Key(v) == ItemKeys(more + [v], []);
    assert ([v] + more)[0] == v && (more + [v])[0] == w;
  }

  function Nulls(n: nat): seq<Value> { if n == 0 then [] else [Null] + Nulls(n - 1) }

  function NullFields(n: nat): seq<Field> { if n == 0 then [] else [Field("", Null)] + NullFields(n - 1) }

  lemma {:induction false} NullsAlike(n: nat)
    ensures |Nulls(n)| == |NullFields(n)| == n && ItemKeys(Nulls(n), []) == FieldKeys(NullFields(n), false)
  {
    if n > 0 {
      NullsAlike(n - 1);
      assert Nulls(n)[1..] == Nulls(n - 1) && NullFields(n)[1..] == NullFields(n - 1);
      assert FieldKey(Field("", Null), false) == Key(Null) == [] + Key(Null);
    }
  }

  /** Any two type names of which one is the other and a number can collide, `int` and `int4`
      for example: ten times so many items of the one look like an empty list of the other and
      so many items beside it. */
  lemma NumberedTypesCollide(name: string, n: nat, parent: string)
    requires n > 0
    ensures DigitAfter(name, name + Digits(n))
    ensures var v, w, rest := TypedArray(name, Nulls(10 * n)), TypedArray(name + Digits(n), []), Nulls(10 * n);
            var a, b := [v] + ([w] + rest), ([w] + rest) + [v];
            a != b && Key(TypedArray(parent, a)) == Key(TypedArray(parent, b))
    ensures var v, w, rest := TypedComposite(name, NullFields(10 * n)), TypedComposite(name + Digits(n), []), Nulls(10 * n);
            var a, b := [v] + ([w] + rest), ([w] + rest) + [v];
            a != b && Key(TypedArray(parent, a)) == Key(TypedArray(parent, b))
  {
    var rest := Nulls(10 * n);
    var tail := ItemKeys(rest, []);
    NullsAlike(10 * n);
    DigitsValue(n);
    NumberedCount(name, n, tail);
    NumberedKeys(name, n, rest, tail);
    OrdersCollide(parent, TypedArray(name, rest), TypedArray(name + Digits(n), []), rest);
    OrdersCollide(parent, TypedComposite(name, NullFields(10 * n)), TypedComposite(name + Digits(n), []), rest);
  }

  lemma LastDigit(n: nat, d: nat)
    requires n > 0 && d < 10
    ensures Digits(10 * n + d) == Digits(n) + [Digit(d)]
  {
    var m := 10 * n + d;
    assert m / 10 == n && m % 10 == d;
  }

  lemma NumberedCount(name: string, n: nat, tail: string)
    requires n > 0
    ensures name + Digits(10 * n) + tail == (name + Digits(n) + "0") + tail
  {
    LastDigit(n, 0);
    assert [Digit(0)] == "0";
    Assoc(name, Digits(n), "0");
  }

  lemma NumberedKeys(name: string, n: nat, rest: seq<Value>, tail: string)
    requires |rest| == |NullFields(10 * n)| == 10 * n && tail == ItemKeys(rest, []) == FieldKeys(NullFields(10 * n), false)
    requires name + Digits(10 * n) + tail == (name + Digits(n) + "0") + tail
    ensures Key(TypedArray(name, rest)) == Key(TypedArray(name + Digits(n), [])) + tail
    ensures Key(TypedComposite(name, NullFields(10 * n))) == Key(TypedComposite(name + Digits(n), [])) + tail
  {
    var start := name + Digits(n) + "0";
    assert Digits(0) == "0" && ItemKeys([], []) == [] && FieldKeys([], false) == [];
    assert start + [] == start;
    Assoc("Y", start, tail);
    Assoc("O", start, tail);
  }

  lemma {:induction false} FieldsAppend(a: seq<Field>, b: seq<Field>)
    ensures FieldKeys(a + b, false) == FieldKeys(a, false) + FieldKeys(b, false)
  {
    if a == [] {
      assert a + b == b;
    } else {
      assert (a + b)[1..] == a[1..] + b;
      FieldsAppend(a[1..], b);
      Assoc(FieldKey(a[0], false), FieldKeys(a[1..], false), FieldKeys(b, false));
    }
  }

  lemma OneField(f: Field)
    ensures FieldKeys([f], false) == FieldKey(f, false)
  {
    assert FieldKeys([f][1..], false) == [];
    assert FieldKey(f, false) + [] == FieldKey(f, false);
  }

  /** Any field name made of another one, the key of a value and a third one collides with the two:
      one field looks like two, and two orders of the three share a key. */
  lemma FieldNamesCollide(typeName: string, s: string, v: Value, u: string, w: Value)
    ensures var one, two := [Field(s + Key(v) + u, w)], [Field(s, v), Field(u, w)];
            one + two != two + one
            && Key(TypedComposite(typeName, one + two)) == Key(TypedComposite(typeName, two + one))
    ensures StartsLike(s, s + Key(v) + u)
  {
    var one, two := [Field(s + Key(v) + u, w)], [Field(s, v), Field(u, w)];
    KeyTag(v, u);
    Assoc(s, Key(v), u);
    TwoFields(s, v, u, w);
    OneField(Field(s + Key(v) + u, w));
    FieldsAppend(one, two);
    FieldsAppend(two, one);
    assert (one + two)[0] == one[0] && (two + one)[0] == two[0];
    assert |one + two| == |two + one|;
  }

  lemma TwoFields(s: string, v: Value, u: string, w: Value)
    ensures FieldKeys([Field(s, v), Field(u, w)], false) == FieldKey(Field(s + Key(v) + u, w), false)
  {
    FieldsAppend([Field(s, v)], [Field(u, w)]);
    assert [Field(s, v)] + [Field(u, w)] == [Field(s, v), Field(u, w)];
    OneField(Field(s, v));
    OneField(Field(u, w));
    Assoc(s + Key(v), u, Key(w));
  }

  /** A field name that starts with a digit joins the count in front of it: one field looks like
      ten or more. */
  lemma DigitFieldCollides(typeName: string, d: nat)
    requires d < 10
    ensures var one, many := [Field([Digit(d)] + Ns(9 + d), Null)], NullFields(10 + d);
            one != many && Key(TypedComposite(typeName, one)) == Key(TypedComposite(typeName, many))
  {
    ManyFields(typeName, d);
    DigitField(typeName, d, Ns(9 + d));
    NsLast(9 + d);
    NullsAlike(10 + d);
    Assoc(typeName, "1", [Digit(d)]);
  }

  lemma ManyFields(typeName: string, d: nat)
    requires d < 10
    ensures Key(TypedComposite(typeName, NullFields(10 + d))) == "O" + (typeName + ("1" + [Digit(d)]) + Ns(10 + d))
  {
    NullsAlike(10 + d);
    FieldKeysAreNs(10 + d);
    TwoDigits(d);
  }

  lemma DigitField(typeName: string, d: nat, u: string)
    requires d < 10
    ensures Key(TypedComposite(typeName, [Field([Digit(d)] + u, Null)]))
            == "O" + (typeName + "1" + [Digit(d)] + (u + "n"))
  {
    OneField(Field([Digit(d)] + u, Null));
    assert Digits(1) == "1" && Key(Null) == "n";
    Assoc([Digit(d)], u, "n");
    Assoc(typeName + "1", [Digit(d)], u + "n");
  }

  lemma TwoDigits(d: nat)
    requires d < 10
    ensures Digits(10 + d) == "1" + [Digit(d)]
  {
    LastDigit(1, d);
    assert Digits(1) == "1";
  }

  lemma {:induction false} NsLast(n: nat)
    ensures Ns(n) + "n" == Ns(n + 1)
  {
    if n > 0 {
      NsLast(n - 1);
      Assoc("n", Ns(n - 1), "n");
    }
  }

  function Ns(n: nat): string { if n == 0 then "" else "n" + Ns(n - 1) }

  lemma {:induction false} FieldKeysAreNs(n: nat)
    ensures FieldKeys(NullFields(n), false) == Ns(n)
  {
    if n > 0 {
      FieldKeysAreNs(n - 1);
      assert NullFields(n)[1..] == NullFields(n - 1);
      assert FieldKey(Field("", Null), false) == Key(Null) == "n";
    }
  }

  /** A string parameter can imitate the rest of a longer SQL text. */
  lemma SeparatorCollides(sql: string)
    ensures var sql2 := sql + [RS] + "1" + [US] + "s4:";
            && Extends(sql2, sql)
            && StatementKey(sql, [Bytes(String, [RS] + "1" + [US] + "n")]) == StatementKey(sql2, [Null])
  {
    var tail := [RS] + "1" + [US] + "n";
    var v := Bytes(String, tail);
    assert Digits(4) == "4" && Digits(1) == "1";
    assert Key(v) == "s4:" + tail && Key(Null) == "n";
    assert ItemKeys([], [US]) == [];
    assert ItemKeys([v], [US]) == [US] + "s4:" + tail;
    assert ItemKeys([Null], [US]) == [US] + "n";
    var sql2 := sql + [RS] + "1" + [US] + "s4:";
    assert StatementKey(sql, [v]) == sql + [RS] + "1" + [US] + "s4:" + tail;
    assert StatementKey(sql2, [Null]) == sql2 + tail;
  }
}
