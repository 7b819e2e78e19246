/** BeanUtils: an entity built from one row's column values through its setters. Reflection is
    replaced by explicit lists: a class's declared fields with their @DBColumn values, and the
    names of its public methods. */
module Beans {
  import opened Exceptions
  import opened Text

  // ---------------------------------------------------------------- what reflection tells

  /** The field types convertToType tells apart; any other type by its simple name. */
  datatype FieldType = StringType | LongPrimitive | LongBoxed | OtherType(simpleName: string)

  /** A declared field: its name, its type and the value of its @DBColumn annotation, if any. */
  datatype Field = Field(name: string, ftype: FieldType, column: Option<string>)

  /** An entity class: its simple name, the table of its @DBEntity annotation if it has one, its
      declared fields in declaration order, and the names of its public methods in the order
      getMethods lists them. */
  datatype EntityClass = EntityClass(simpleName: string, table: Option<string>, fields: seq<Field>,
                                     methods: seq<string>)

  /** What the Java language guarantees of a class: its fields have non-empty, distinct names. */
  ghost predicate WellFormed(cls: EntityClass) {
    && (forall i :: 0 <= i < |cls.fields| ==> |cls.fields[i].name| >= 1)
    && (forall i, j :: 0 <= i < j < |cls.fields| ==> cls.fields[i].name != cls.fields[j].name)
  }

  /** The argument a setter is called with: a String (possibly null) or a long. */
  datatype Value = StringValue(s: Option<string>) | LongValue(n: int)

  /** An object newInstance built: the argument each setter was called with, by the name of the
      field the setter assigns. */
  type Instance = map<string, Value>

  // ---------------------------------------------------------------- Long.parseLong

  const MinLong := -0x8000_0000_0000_0000
  const MaxLong := 0x7FFF_FFFF_FFFF_FFFF

  predicate IsDigit(c: char) {
    '0' <= c <= '9'
  }

  predicate AllDigits(s: string) {
    forall i :: 0 <= i < |s| ==> IsDigit(s[i])
  }

  /** The number a string of decimal digits denotes. */
  function DigitsValue(ds: string): nat
    requires AllDigits(ds)
  {
    if ds == [] then 0 else DigitsValue(ds[..|ds| - 1]) * 10 + (ds[|ds| - 1] as int - '0' as int)
  }

  /** Whether a number is negative, and the text after its sign, if it has one. */
  function SplitSign(t: string): (bool, string) {
    if |t| > 0 && (t[0] == '-' || t[0] == '+') then (t[0] == '-', t[1..]) else (false, t)
  }

  /** The text of a long: an optional sign, then one or more decimal digits. */
  predicate LongSyntax(t: string) {
    |SplitSign(t).1| >= 1 && AllDigits(SplitSign(t).1)
  }

  /** The number such a text denotes, of any size. */
  function Denoted(t: string): int
    requires LongSyntax(t)
  {
    var (negative, digits) := SplitSign(t);
    if negative then -(DigitsValue(digits) as int) else DigitsValue(digits) as int
  }

  /** Long.parseLong: an optional sign, then one or more decimal digits, denoting a value in the
      range of long; anything else, null included, throws NumberFormatException. */
  function ParseLong(s: Option<string>): (r: Result<int>)
    ensures r.Ok? ==> MinLong <= r.value <= MaxLong
    ensures r.Ok? ==> s.Some? && |SplitSign(s.value).1| >= 1 && AllDigits(SplitSign(s.value).1)
    // every well-formed text in range parses, leading zeros and "+" included, to what it denotes
    ensures r.Ok? <==> s.Some? && LongSyntax(s.value) && MinLong <= Denoted(s.value) <= MaxLong
    ensures r.Ok? ==> r.value == Denoted(s.value)
    ensures r.Threw? ==> r.exc == NumberFormat(s)
  {
    if s.None? then Threw(NumberFormat(s))
    else
      var (negative, digits) := SplitSign(s.value);
      if |digits| == 0 || !AllDigits(digits) then Threw(NumberFormat(s))
      else
        var v := if negative then -(DigitsValue(digits) as int) else DigitsValue(digits) as int;
        if MinLong <= v <= MaxLong then Ok(v) else Threw(NumberFormat(s))
  }

  /** For instance: leading zeros, a plus sign and a negative zero are accepted; an empty text,
      a lone sign and null are not. */
  lemma ParseLongExamples()
    ensures ParseLong(Some("007")) == Ok(7)
    ensures ParseLong(Some("+5")) == Ok(5)
    ensures ParseLong(Some("-0")) == Ok(0)
    ensures ParseLong(Some("")).Threw? && ParseLong(Some("-")).Threw? && ParseLong(None).Threw?
  {
    assert DigitsValue("007") == 7 by {
      assert "007"[..2] == "00" && "00"[..1] == "0" && "0"[..0] == "";
    }
    assert SplitSign("+5") == (false, "5") && "5"[..0] == "";
    assert SplitSign("-0") == (true, "0") && "0"[..0] == "";
  }

  function DigitChar(d: nat): char
    requires d < 10
  {
    ('0' as int + d) as char
  }

  /** The decimal digits of n, most significant first, without leading zeros. */
  function Digits(n: nat): (ds: string)
    ensures |ds| >= 1 && AllDigits(ds)
  {
    if n < 10 then [DigitChar(n)] else Digits(n / 10) + [DigitChar(n % 10)]
  }

  /** Long.toString. */
  function LongToString(n: int): string {
    if n < 0 then "-" + Digits(-n) else Digits(n)
  }

  lemma {:induction false} DigitsValueOfDigits(n: nat)
    ensures DigitsValue(Digits(n)) == n
  {
    if n >= 10 {
      DigitsValueOfDigits(n / 10);
      var ds := Digits(n);
      assert ds[..|ds| - 1] == Digits(n / 10);
    }
  }

  /** Every long reads back from its decimal form. */
  lemma ParseLongToString(n: int)
    requires MinLong <= n <= MaxLong
    ensures ParseLong(Some(LongToString(n))) == Ok(n)
  {
    if n < 0 {
      DigitsValueOfDigits(-n);
      assert ("-" + Digits(-n))[1..] == Digits(-n);
    } else {
      DigitsValueOfDigits(n);
    }
  }

  // ---------------------------------------------------------------- the helpers

  function NoConversionMessage(typeName: string): string {
    "TODO: not implemented conversion from String to '" + typeName + "'"
  }

  /** convertToType: a String field takes the text as it is, a long or Long field its parsed
      value, and any other type has no conversion. */
  function ConvertToType(t: FieldType, value: Option<string>): (r: Result<Value>)
    ensures t.StringType? ==> r == Ok(StringValue(value))
    ensures (t.LongPrimitive? || t.LongBoxed?) ==>
      && (r.Ok? <==> ParseLong(value).Ok?)
      && (r.Ok? ==> r.value == LongValue(ParseLong(value).value) && MinLong <= r.value.n <= MaxLong)
      && (r.Threw? ==> r.exc == NumberFormat(value))
    ensures t.OtherType? ==> r == Threw(IllegalArgument(NoConversionMessage(t.simpleName)))
  {
    match t
    case StringType => Ok(StringValue(value))
    case LongPrimitive | LongBoxed =>
      var n :- ParseLong(value);
      Ok(LongValue(n))
    case OtherType(simpleName) => Threw(IllegalArgument(NoConversionMessage(simpleName)))
  }

  /** getSetterName: "set", the field name's first letter in upper case, then the rest of it. */
  function SetterName(fieldName: string): (r: string)
    requires |fieldName| >= 1
    ensures |r| == |fieldName| + 3
    ensures r[..3] == "set" && r[3] == Upper(fieldName[0]) && r[4..] == fieldName[1..]
  {
    "set" + [Upper(fieldName[0])] + fieldName[1..]
  }

  /** Two fields share a setter name only if they differ at most in the case of their first letter. */
  lemma SetterNameDeterminesField(f: string, g: string)
    requires |f| >= 1 && |g| >= 1 && SetterName(f) == SetterName(g)
    ensures |f| == |g| && Upper(f[0]) == Upper(g[0]) && f[1..] == g[1..]
  {
    assert SetterName(f)[4..] == SetterName(g)[4..];
  }

  function NoMethodMessage(name: string, className: string): string {
    "No method '" + name + "' found in class '" + className + "'"
  }

  /** findMethod: the position of the first method named exactly `name`. */
  function FindMethod(methods: seq<string>, className: string, name: string): (r: Result<nat>)
    ensures r.Ok? ==> r.value < |methods| && methods[r.value] == name
    ensures r.Ok? ==> forall j :: 0 <= j < r.value ==> methods[j] != name
    ensures r.Threw? <==> name !in methods
    ensures r.Threw? ==> r.exc == IllegalArgument(NoMethodMessage(name, className))
  {
    if methods == [] then Threw(IllegalArgument(NoMethodMessage(name, className)))
    else if methods[0] == name then Ok(0)
    else match FindMethod(methods[1..], className, name)
      case Ok(j) => Ok(j + 1)
      case Threw(e) => Threw(e)
  }

  function MissingColumnMessage(key: string): string {
    "Expected value for column '" + key + "'"
  }

  /** findIgnoreCase: the value under `key` if the map has that key; otherwise the value under the
      first key, in the map's iteration order `keys`, that equals `key` ignoring case. */
  function FindIgnoreCase(params: map<string, Option<string>>, key: string, keys: seq<string>): (r: Result<Option<string>>)
    requires forall k :: k in params <==> k in keys
    ensures key in params ==> r == Ok(params[key])
    ensures r.Ok? <==> exists k :: k in params && EqualsIgnoreCase(k, key)
    ensures r.Ok? ==> exists k :: k in params && EqualsIgnoreCase(k, key) && r.value == params[k]
    ensures key !in params && r.Ok? ==> r.value == params[keys[IndexIgnoreCase(keys, key).value]]
    ensures r.Threw? ==> r.exc == IllegalArgument(MissingColumnMessage(key))
  {
    EqualsIgnoreCaseReflexive(key);
    if key in params then Ok(params[key])
    else match IndexIgnoreCase(keys, key)
      case Some(i) => Ok(params[keys[i]])
      case None => Threw(IllegalArgument(MissingColumnMessage(key)))
  }

  /** The column each annotated field maps to. */
  function ColumnMapping(fields: seq<Field>): map<Field, string> {
    map f | f in fields && f.column.Some? :: f.column.value
  }

  /** getFieldMapping: exactly the fields carrying @DBColumn, each mapped to the annotation's value. */
  method GetFieldMapping(fields: seq<Field>) returns (res: map<Field, string>)
    ensures forall f :: f in res <==> f in fields && f.column.Some?
    ensures forall f :: f in res ==> res[f] == f.column.value
    ensures res == ColumnMapping(fields)
  {
    res := map[];
    for i := 0 to |fields|
      invariant forall f :: f in res <==> f in fields[..i] && f.column.Some?
      invariant forall f :: f in res ==> res[f] == f.column.value
    {
      assert fields[..i + 1] == fields[..i] + [fields[i]];
      var column := fields[i].column;
      if column.Some? {
        res := res[fields[i] := column.value];
      }
    }
    assert fields[..|fields|] == fields;
  }

  /** The annotated fields in declaration order: the order in which this model has newInstance
      visit the keys of getFieldMapping's HashMap, whose own order is unspecified. */
  function Annotated(fields: seq<Field>): (r: seq<Field>)
    ensures forall f :: f in r <==> f in fields && f.column.Some?
  {
    if fields == [] then []
    else (if fields[0].column.Some? then [fields[0]] else []) + Annotated(fields[1..])
  }

  /** Distinct field names stay distinct among the annotated fields. */
  lemma {:induction false} AnnotatedNamesDistinct(fields: seq<Field>)
    requires forall i, j :: 0 <= i < j < |fields| ==> fields[i].name != fields[j].name
    ensures forall i, j :: 0 <= i < j < |Annotated(fields)| ==> Annotated(fields)[i].name != Annotated(fields)[j].name
  {
    if fields != [] {
      var tail := fields[1..];
      forall i, j | 0 <= i < j < |tail| ensures tail[i].name != tail[j].name {
        assert tail[i] == fields[i + 1] && tail[j] == fields[j + 1];
      }
      AnnotatedNamesDistinct(tail);
      forall g | g in tail ensures g.name != fields[0].name {
        var k :| 0 <= k < |tail| && tail[k] == g;
        assert g == fields[k + 1];
      }
    }
  }

  // ---------------------------------------------------------------- newInstance

  /** The declaration order of the annotated fields visits each of them exactly once. */
  lemma AnnotatedEnumerates(cls: EntityClass)
    requires WellFormed(cls)
    ensures Enumerates(Annotated(cls.fields), cls)
  {
    AnnotatedNamesDistinct(cls.fields);
  }


  /** Whether field f can be set: its column has a value in `params`, the class has its setter,
      and the value converts to the field's type. */
  predicate Settable(params: map<string, Option<string>>, keys: seq<string>, cls: EntityClass,
                     mapping: map<Field, string>, f: Field)
    requires forall k :: k in params <==> k in keys
    requires f in mapping && |f.name| >= 1
  {
    && FindIgnoreCase(params, mapping[f], keys).Ok?
    && FindMethod(cls.methods, cls.simpleName, SetterName(f.name)).Ok?
    && ConvertToType(f.ftype, FindIgnoreCase(params, mapping[f], keys).value).Ok?
  }

  /** The value the setter of a settable field is called with. */
  function FieldValue(params: map<string, Option<string>>, keys: seq<string>, cls: EntityClass,
                      mapping: map<Field, string>, f: Field): Value
    requires forall k :: k in params <==> k in keys
    requires f in mapping && |f.name| >= 1
    requires Settable(params, keys, cls, mapping, f)
  {
    ConvertToType(f.ftype, FindIgnoreCase(params, mapping[f], keys).value).value
  }

  /** setFieldValue for each field of `order` in turn, on the object built so far: look up the
      column's value, find the setter, convert the value, call the setter. */
  function SetFields(params: map<string, Option<string>>, keys: seq<string>, cls: EntityClass,
                     mapping: map<Field, string>, order: seq<Field>, obj: Instance): Result<Instance>
    requires forall k :: k in params <==> k in keys
    requires forall f :: f in order ==> f in mapping && |f.name| >= 1
  {
    if order == [] then Ok(obj)
    else
      var f := order[0];
      var value :- FindIgnoreCase(params, mapping[f], keys);
      var setter :- FindMethod(cls.methods, cls.simpleName, SetterName(f.name));
      var v :- ConvertToType(f.ftype, value);
      SetFields(params, keys, cls, mapping, order[1..], obj[f.name := v])
  }

  /** What newInstance asks of the order it visits the fields in: each annotated field exactly once. */
  ghost predicate Enumerates(order: seq<Field>, cls: EntityClass) {
    && (forall f :: f in order <==> f in cls.fields && f.column.Some?)
    && (forall i, j :: 0 <= i < j < |order| ==> order[i] != order[j])
  }

  /** newInstance on a row's column values `params`, whose keys iterate in the order `keys`. */
  function NewInstanceOf(params: map<string, Option<string>>, keys: seq<string>, cls: EntityClass,
                         order: seq<Field>): Result<Instance>
    requires forall k :: k in params <==> k in keys
    requires WellFormed(cls) && Enumerates(order, cls)
  {
    SetFields(params, keys, cls, ColumnMapping(cls.fields), order, map[])
  }

  /** The fields of `order` have distinct names when the class's do. */
  lemma EnumeratedNamesDistinct(order: seq<Field>, cls: EntityClass)
    requires WellFormed(cls) && Enumerates(order, cls)
    ensures forall i, j :: 0 <= i < j < |order| ==> order[i].name != order[j].name
    ensures forall f :: f in order ==> f in ColumnMapping(cls.fields) && |f.name| >= 1
  {
    forall i, j | 0 <= i < j < |order| ensures order[i].name != order[j].name {
      var a :| 0 <= a < |cls.fields| && cls.fields[a] == order[i];
      var b :| 0 <= b < |cls.fields| && cls.fields[b] == order[j];
      assert a != b;
    }
    forall f | f in order ensures |f.name| >= 1 {
      var a :| 0 <= a < |cls.fields| && cls.fields[a] == f;
    }
  }

  /** newInstance: create the object, then set each annotated field through its setter. */
  method NewInstance(params: map<string, Option<string>>, keys: seq<string>, cls: EntityClass,
                     order: seq<Field>) returns (r: Result<Instance>)
    requires forall k :: k in params <==> k in keys
    requires WellFormed(cls) && Enumerates(order, cls)
    ensures r == NewInstanceOf(params, keys, cls, order)
  {
    EnumeratedNamesDistinct(order, cls);
    var fieldMapping := GetFieldMapping(cls.fields);
    var obj: Instance := map[];
    for i := 0 to |order|
      invariant SetFields(params, keys, cls, fieldMapping, order, map[])
                == SetFields(params, keys, cls, fieldMapping, order[i..], obj)
    {
      assert order[i..][0] == order[i] && order[i..][1..] == order[i + 1..];
      var field := order[i];
      var value :- FindIgnoreCase(params, fieldMapping[field], keys);
      var setter :- FindMethod(cls.methods, cls.simpleName, SetterName(field.name));
      var v :- ConvertToType(field.ftype, value);
      obj := obj[field.name := v];
    }
    assert order[|order|..] == [];
    r := Ok(obj);
  }

  /** The fields of `order` named n. */
  ghost predicate Named(order: seq<Field>, n: string) {
    exists i :: 0 <= i < |order| && order[i].name == n
  }

  /** Setting the fields succeeds exactly when every one of them can be set. */
  lemma {:induction false} SetFieldsSucceeds(params: map<string, Option<string>>, keys: seq<string>,
                                             cls: EntityClass, mapping: map<Field, string>,
                                             order: seq<Field>, obj: Instance)
    requires forall k :: k in params <==> k in keys
    requires forall f :: f in order ==> f in mapping && |f.name| >= 1
    ensures SetFields(params, keys, cls, mapping, order, obj).Ok? <==>
            forall i :: 0 <= i < |order| ==> Settable(params, keys, cls, mapping, order[i])
  {
    if order != [] {
      var f := order[0];
      if Settable(params, keys, cls, mapping, f) {
        var v := FieldValue(params, keys, cls, mapping, f);
        SetFieldsSucceeds(params, keys, cls, mapping, order[1..], obj[f.name := v]);
        if forall i :: 0 <= i < |order[1..]| ==> Settable(params, keys, cls, mapping, order[1..][i]) {
          forall i | 0 <= i < |order| ensures Settable(params, keys, cls, mapping, order[i]) {
            if i > 0 { assert order[i] == order[1..][i - 1]; }
          }
        }
        if forall i :: 0 <= i < |order| ==> Settable(params, keys, cls, mapping, order[i]) {
          forall i | 0 <= i < |order[1..]| ensures Settable(params, keys, cls, mapping, order[1..][i]) {
            assert order[1..][i] == order[i + 1];
          }
        }
      }
    }
  }

  /** A successful first step sets the first field to its value. */
  lemma SetFieldsStep(params: map<string, Option<string>>, keys: seq<string>, cls: EntityClass,
                      mapping: map<Field, string>, order: seq<Field>, obj: Instance)
    requires forall k :: k in params <==> k in keys
    requires forall f :: f in order ==> f in mapping && |f.name| >= 1
    requires order != [] && SetFields(params, keys, cls, mapping, order, obj).Ok?
    ensures Settable(params, keys, cls, mapping, order[0])
    ensures SetFields(params, keys, cls, mapping, order, obj) ==
            SetFields(params, keys, cls, mapping, order[1..],
                      obj[order[0].name := FieldValue(params, keys, cls, mapping, order[0])])
  {
  }

  /** Fields not in `order` keep what the object held. */
  lemma {:induction false} SetFieldsKeepsOthers(params: map<string, Option<string>>, keys: seq<string>,
                                                cls: EntityClass, mapping: map<Field, string>,
                                                order: seq<Field>, obj: Instance, n: string)
    requires forall k :: k in params <==> k in keys
    requires forall f :: f in order ==> f in mapping && |f.name| >= 1
    requires SetFields(params, keys, cls, mapping, order, obj).Ok?
    requires n in obj && !Named(order, n)
    ensures n in SetFields(params, keys, cls, mapping, order, obj).value
    ensures SetFields(params, keys, cls, mapping, order, obj).value[n] == obj[n]
  {
    if order != [] {
      SetFieldsStep(params, keys, cls, mapping, order, obj);
      var f := order[0];
      assert f.name != n;
      SetFieldsKeepsOthers(params, keys, cls, mapping, order[1..],
                           obj[f.name := FieldValue(params, keys, cls, mapping, f)], n);
    }
  }

  /** The object gains exactly the fields of `order`. */
  lemma {:induction false} SetFieldsKeys(params: map<string, Option<string>>, keys: seq<string>,
                                         cls: EntityClass, mapping: map<Field, string>,
                                         order: seq<Field>, obj: Instance, n: string)
    requires forall k :: k in params <==> k in keys
    requires forall f :: f in order ==> f in mapping && |f.name| >= 1
    requires SetFields(params, keys, cls, mapping, order, obj).Ok?
    ensures n in SetFields(params, keys, cls, mapping, order, obj).value <==> n in obj || Named(order, n)
  {
    if order != [] {
      SetFieldsStep(params, keys, cls, mapping, order, obj);
      var f := order[0];
      SetFieldsKeys(params, keys, cls, mapping, order[1..],
                    obj[f.name := FieldValue(params, keys, cls, mapping, f)], n);
      if Named(order[1..], n) {
        var i :| 0 <= i < |order[1..]| && order[1..][i].name == n;
        assert order[i + 1] == order[1..][i];
      }
      if Named(order, n) && n != f.name {
        var i :| 0 <= i < |order| && order[i].name == n;
        assert order[1..][i - 1] == order[i];
      }
    }
  }

  /** Each field of `order` gets its converted column value, when their names are distinct. */
  lemma {:induction false} SetFieldsAssigns(params: map<string, Option<string>>, keys: seq<string>,
                                            cls: EntityClass, mapping: map<Field, string>,
                                            order: seq<Field>, obj: Instance, i: nat)
    requires forall k :: k in params <==> k in keys
    requires forall f :: f in order ==> f in mapping && |f.name| >= 1
    requires forall a, b :: 0 <= a < b < |order| ==> order[a].name != order[b].name
    requires SetFields(params, keys, cls, mapping, order, obj).Ok?
    requires i < |order|
    ensures Settable(params, keys, cls, mapping, order[i])
    ensures order[i].name in SetFields(params, keys, cls, mapping, order, obj).value
    ensures SetFields(params, keys, cls, mapping, order, obj).value[order[i].name]
            == FieldValue(params, keys, cls, mapping, order[i])
  {
    SetFieldsStep(params, keys, cls, mapping, order, obj);
    var f := order[0];
    var tail := order[1..];
    var obj' := obj[f.name := FieldValue(params, keys, cls, mapping, f)];
    forall a, b | 0 <= a < b < |tail| ensures tail[a].name != tail[b].name {
      assert tail[a] == order[a + 1] && tail[b] == order[b + 1];
    }
    if i == 0 {
      SetFieldsKeepsOthers(params, keys, cls, mapping, tail, obj', f.name);
    } else {
      assert tail[i - 1] == order[i];
      SetFieldsAssigns(params, keys, cls, mapping, tail, obj', i - 1);
    }
  }

  /** newInstance succeeds exactly when every annotated field can be set; its object then holds,
      for each annotated field and nothing else, the converted value of the field's column. */
  lemma NewInstanceSetsEveryField(params: map<string, Option<string>>, keys: seq<string>, cls: EntityClass,
                                  order: seq<Field>)
    requires forall k :: k in params <==> k in keys
    requires WellFormed(cls) && Enumerates(order, cls)
    ensures forall f :: f in order ==> f in ColumnMapping(cls.fields) && |f.name| >= 1
    ensures NewInstanceOf(params, keys, cls, order).Ok? <==>
            forall i :: 0 <= i < |order| ==> Settable(params, keys, cls, ColumnMapping(cls.fields), order[i])
    ensures NewInstanceOf(params, keys, cls, order).Ok? ==>
      var r := NewInstanceOf(params, keys, cls, order).value;
      && (forall n :: n in r <==> Named(order, n))
      && (forall i :: 0 <= i < |order| ==>
            r[order[i].name] == FieldValue(params, keys, cls, ColumnMapping(cls.fields), order[i]))
  {
    EnumeratedNamesDistinct(order, cls);
    var mapping := ColumnMapping(cls.fields);
    SetFieldsSucceeds(params, keys, cls, mapping, order, map[]);
    if NewInstanceOf(params, keys, cls, order).Ok? {
      forall n ensures n in NewInstanceOf(params, keys, cls, order).value <==> Named(order, n) {
        SetFieldsKeys(params, keys, cls, mapping, order, map[], n);
      }
      forall i | 0 <= i < |order| ensures NewInstanceOf(params, keys, cls, order).value[order[i].name]
                                          == FieldValue(params, keys, cls, mapping, order[i]) {
        SetFieldsAssigns(params, keys, cls, mapping, order, map[], i);
      }
    }
  }

  /** newInstance fails when an annotated field's column has no value under any key that equals
      it ignoring case. */
  lemma NewInstanceNeedsEveryColumn(params: map<string, Option<string>>, keys: seq<string>, cls: EntityClass,
                                    order: seq<Field>, f: Field)
    requires forall k :: k in params <==> k in keys
    requires WellFormed(cls) && Enumerates(order, cls)
    requires f in cls.fields && f.column.Some?
    requires forall k :: k in params ==> !EqualsIgnoreCase(k, f.column.value)
    ensures NewInstanceOf(params, keys, cls, order).Threw?
  {
    NewInstanceSetsEveryField(params, keys, cls, order);
    var i :| 0 <= i < |order| && order[i] == f;
    assert !Settable(params, keys, cls, ColumnMapping(cls.fields), order[i]);
  }
}
