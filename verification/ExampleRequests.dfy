/**
  The example generated from the schema of a type: it coerces to the type, and it conforms to the
  schema unless the generator picks a boolean out of a literal whose values are numbers and booleans,
  and no other arm of a union admits it.
*/
module ExampleRequests {
  import opened PluginTypes
  import opened JsonSchema
  import opened SchemaSoundness
  import opened SchemaLimits

  // ---------------------------------------------------------------------------------------
  // What the generator looks at

  /** A literal of numbers and booleans, typed "number", whose first value is a boolean. */
  predicate BoolBeforeNumber(options: seq<Value>) {
    && |options| > 0
    && options[0].VBool?
    && (forall i :: 0 <= i < |options| ==> PyNumber(options[i]).Some?)
    && (exists i :: 0 <= i < |options| && !options[i].VBool?)
  }

  predicate AnyRequired(fields: seq<Field>) {
    exists i :: 0 <= i < |fields| && fields[i].default.None?
  }

  predicate FirstLiteral(fields: seq<Field>, i: nat)
    requires i < |fields|
  {
    fields[i].ty.TLiteral? && forall j :: 0 <= j < i ==> !fields[j].ty.TLiteral?
  }

  /** The generator fills in field i: the required fields, or else the first literal one. */
  predicate Picked(fields: seq<Field>, i: nat)
    requires i < |fields|
  {
    if AnyRequired(fields) then fields[i].default.None? else FirstLiteral(fields, i)
  }

  /** In a union without None, the example of the first arm conforms to the schema of a later one. */
  predicate OtherArmAdmits(arms: seq<Ty>) {
    NoneFree(arms) && exists i :: 0 < i < |arms| && Conforms(SchemaFor(arms[i]), Example(SchemaFor(arms[0])))
  }

  /**
    No literal the generator reaches puts a boolean before its numbers; in a union of several arms
    the example of the first arm may instead conform to another arm.
  */
  predicate Safe(t: Ty)
    decreases t
  {
    match t
    case TList(elem) => Safe(elem)
    case TLiteral(options) => !BoolBeforeNumber(options)
    case TData(_, fields) => forall i :: 0 <= i < |fields| && Picked(fields, i) ==> Safe(fields[i].ty)
    case TUnion(arms) => NonNullCount(arms) > 0 ==> Safe(arms[FirstNonNull(arms)]) || OtherArmAdmits(arms)
    case _ => true
  }

  // ---------------------------------------------------------------------------------------
  // The example of a dataclass

  predicate DistinctNames(properties: seq<Property>) {
    forall i, j :: 0 <= i < j < |properties| ==> properties[i].name != properties[j].name
  }

  lemma {:induction false} RequiredExample(properties: seq<Property>, required: seq<string>, i: nat)
    requires i < |properties| && DistinctNames(properties)
    ensures properties[i].name in ExampleRequired(properties, required) <==> properties[i].name in required
    ensures properties[i].name in required ==>
              ExampleRequired(properties, required)[properties[i].name] == Example(properties[i].schema)
  {
    var before := properties[..|properties| - 1];
    if i < |properties| - 1 {
      RequiredExample(before, required, i);
    } else {
      forall k | k in ExampleRequired(before, required) ensures Named(before, k) {
        RequiredExampleNames(before, required, k);
      }
    }
  }

  lemma {:induction false} RequiredExampleNames(properties: seq<Property>, required: seq<string>, k: string)
    requires k in ExampleRequired(properties, required)
    ensures Named(properties, k)
  {
    var before, last := properties[..|properties| - 1], properties[|properties| - 1];
    if k != last.name {
      RequiredExampleNames(before, required, k);
      var i :| 0 <= i < |before| && before[i].name == k;
      assert properties[i].name == k;
    }
  }

  lemma {:induction false} OptionalExample(properties: seq<Property>, k: nat)
    requires k <= |properties|
    requires forall i :: 0 <= i < k ==> properties[i].schema.options.None?
    requires k < |properties| ==> properties[k].schema.options.Some?
    ensures ExampleOptional(properties) ==
              if k == |properties| then map[] else map[properties[k].name := Example(properties[k].schema)]
  {
    if k > 0 {
      assert properties[1..][k - 1..] == properties[k..];
      OptionalExample(properties[1..], k - 1);
    }
  }

  function PropertiesOf(fields: seq<Field>): seq<Property> {
    SchemaFor(TData("", fields)).properties
  }

  /** Entries that hold exactly the examples of the picked fields. */
  ghost predicate HoldsPicked(fields: seq<Field>, entries: map<string, Value>) {
    && (forall i :: 0 <= i < |fields| ==> HoldsIfPicked(fields, entries, i))
    && (forall k :: k in entries ==> IsField(fields, k))
  }

  ghost predicate HoldsIfPicked(fields: seq<Field>, entries: map<string, Value>, i: nat)
    requires i < |fields|
  {
    && (fields[i].name in entries <==> Picked(fields, i))
    && (Picked(fields, i) ==> entries[fields[i].name] == Example(SchemaFor(fields[i].ty)))
  }

  lemma RequiredExactly(fields: seq<Field>, i: nat)
    requires Distinct(fields) && i < |fields|
    ensures fields[i].name in RequiredNames(fields) <==> fields[i].default.None?
  {
    if fields[i].default.None? { RequiredIff(fields, i); }
    if fields[i].name in RequiredNames(fields) {
      var k :| 0 <= k < |RequiredNames(fields)| && RequiredNames(fields)[k] == fields[i].name;
      RequiredAreFields(fields, k);
    }
  }

  lemma PropertiesAreDistinct(fields: seq<Field>)
    requires Distinct(fields)
    ensures |PropertiesOf(fields)| == |fields| && DistinctNames(PropertiesOf(fields))
    ensures forall i :: 0 <= i < |fields| ==> PropertiesOf(fields)[i] == Property(fields[i].name, SchemaFor(fields[i].ty))
  {
  }

  lemma RequiredFieldHolds(fields: seq<Field>, properties: seq<Property>, required: seq<string>, i: nat)
    requires i < |fields| == |properties| && DistinctNames(properties)
    requires properties[i] == Property(fields[i].name, SchemaFor(fields[i].ty))
    requires fields[i].name in required <==> fields[i].default.None?
    requires AnyRequired(fields)
    ensures HoldsIfPicked(fields, ExampleRequired(properties, required), i)
  {
    RequiredExample(properties, required, i);
  }

  lemma NamedIsField(fields: seq<Field>, k: string)
    requires Named(PropertiesOf(fields), k)
    ensures IsField(fields, k)
  {
    var i :| 0 <= i < |fields| && PropertiesOf(fields)[i].name == k;
    assert fields[i].name == k;
  }

  lemma RequiredHold(fields: seq<Field>)
    requires Distinct(fields) && AnyRequired(fields)
    ensures HoldsPicked(fields, ExampleRequired(PropertiesOf(fields), RequiredNames(fields)))
    ensures |ExampleRequired(PropertiesOf(fields), RequiredNames(fields))| > 0
  {
    var entries := ExampleRequired(PropertiesOf(fields), RequiredNames(fields));
    PropertiesAreDistinct(fields);
    forall i | 0 <= i < |fields| ensures HoldsIfPicked(fields, entries, i) {
      RequiredExactly(fields, i);
      RequiredFieldHolds(fields, PropertiesOf(fields), RequiredNames(fields), i);
    }
    forall k | k in entries ensures IsField(fields, k) {
      RequiredExampleNames(PropertiesOf(fields), RequiredNames(fields), k);
      NamedIsField(fields, k);
    }
    var i :| 0 <= i < |fields| && fields[i].default.None?;
    assert HoldsIfPicked(fields, entries, i);
    assert fields[i].name in entries;
  }

  lemma NothingRequired(fields: seq<Field>)
    requires !AnyRequired(fields)
    ensures RequiredNames(fields) == []
    ensures |ExampleRequired(PropertiesOf(fields), RequiredNames(fields))| == 0
  {
    if |RequiredNames(fields)| > 0 { RequiredAreFields(fields, 0); }
    var entries := ExampleRequired(PropertiesOf(fields), []);
    NothingExample(PropertiesOf(fields));
  }

  lemma {:induction false} NothingExample(properties: seq<Property>)
    ensures ExampleRequired(properties, []) == map[]
  {
    if |properties| > 0 { NothingExample(properties[..|properties| - 1]); }
  }

  function FirstLiteralFrom(fields: seq<Field>, k: nat): (r: nat)
    requires k <= |fields|
    ensures k <= r <= |fields|
    ensures forall i :: k <= i < r ==> !fields[i].ty.TLiteral?
    ensures r < |fields| ==> fields[r].ty.TLiteral?
    decreases |fields| - k
  {
    if k == |fields| || fields[k].ty.TLiteral? then k else FirstLiteralFrom(fields, k + 1)
  }

  lemma SchemaShape(t: Ty)
    ensures SchemaFor(t).options.Some? <==> t.TLiteral?
    ensures !IsNullSchema(SchemaFor(t))
  {
  }

  lemma OptionalHold(fields: seq<Field>)
    requires Distinct(fields) && !AnyRequired(fields)
    ensures HoldsPicked(fields, ExampleOptional(PropertiesOf(fields)))
  {
    var k := FirstLiteralFrom(fields, 0);
    var properties := PropertiesOf(fields);
    forall i | 0 <= i < |fields| ensures properties[i].schema.options.Some? <==> fields[i].ty.TLiteral? {
      SchemaShape(fields[i].ty);
      assert properties[i].schema == SchemaFor(fields[i].ty);
    }
    OptionalExample(properties, k);
    var entries := ExampleOptional(properties);
    forall i | 0 <= i < |fields| ensures HoldsIfPicked(fields, entries, i) {
      assert FirstLiteral(fields, i) <==> i == k;
    }
    forall name | name in entries ensures IsField(fields, name) {
      assert fields[k].name == name;
    }
  }

  /** The example of a dataclass schema holds the examples of the picked fields and nothing else. */
  lemma DataExample(cls: string, fields: seq<Field>)
    requires Distinct(fields)
    ensures Example(SchemaFor(TData(cls, fields))).VDict?
    ensures HoldsPicked(fields, Example(SchemaFor(TData(cls, fields))).entries)
  {
    var s := SchemaFor(TData(cls, fields));
    assert s.properties == PropertiesOf(fields);
    assert s.anyOf == [];
    if AnyRequired(fields) {
      RequiredHold(fields);
    } else {
      NothingRequired(fields);
      OptionalHold(fields);
    }
  }

  // ---------------------------------------------------------------------------------------
  // The example of a union

  lemma UnionExample(arms: seq<Ty>)
    requires IsOptional(arms) || NoneFree(arms)
    ensures NonNullCount(arms) > 0
    ensures Example(SchemaFor(TUnion(arms))) == Example(SchemaFor(arms[FirstNonNull(arms)]))
  {
    var s := SchemaFor(TUnion(arms));
    if IsOptional(arms) {
      OptionalCore(arms);
      SchemaShape(arms[FirstNonNull(arms)]);
      assert s.anyOf == [SchemaFor(arms[FirstNonNull(arms)]), EMPTY.(kind := Some(KNull))];
      assert !IsNullSchema(s.anyOf[0]) && IsNullSchema(s.anyOf[1]);
    } else {
      NoneFreeCount(arms);
      SchemaShape(arms[0]);
      assert s.anyOf[0] == SchemaFor(arms[0]);
      assert !IsNullSchema(s.anyOf[0]);
      assert FirstNonNull(arms) == 0;
    }
  }

  lemma UnionConforms(arms: seq<Ty>, v: Value)
    requires IsOptional(arms) || NoneFree(arms)
    requires NonNullCount(arms) > 0 && Conforms(SchemaFor(arms[FirstNonNull(arms)]), v)
    ensures Conforms(SchemaFor(TUnion(arms)), v)
  {
    if IsOptional(arms) {
      OptionalConforms(arms, v);
    } else {
      NoneFreeCount(arms);
      assert SchemaFor(TUnion(arms)).anyOf[FirstNonNull(arms)] == SchemaFor(arms[FirstNonNull(arms)]);
    }
  }

  // ---------------------------------------------------------------------------------------
  // Generated examples coerce

  lemma {:induction false} ExampleCoerces(py: Python, t: Ty)
    requires Grammar(t)
    ensures Coerce(py, t, Example(SchemaFor(t))).Some?
    decreases t
  {
    match t
    case TList(elem) =>
      ExampleCoerces(py, elem);
      assert Example(SchemaFor(t)) == VList([Example(SchemaFor(elem))]);
    case TDict(elem) => assert Example(SchemaFor(t)) == VDict(map[]);
    case TLiteral(options) => assert PyEqual(options[0], options[0]);
    case TData(cls, fields) =>
      DataExample(cls, fields);
      var entries := Example(SchemaFor(t)).entries;
      forall i | 0 <= i < |fields| ensures CoerceField(py, fields[i], entries).Some? {
        assert HoldsIfPicked(fields, entries, i);
        if Picked(fields, i) { ExampleCoerces(py, fields[i].ty); }
      }
      FieldsAccept(py, fields, entries);
    case TUnion(arms) =>
      UnionExample(arms);
      var k := FirstNonNull(arms);
      ExampleCoerces(py, arms[k]);
      UnionAccepts(py, arms, Example(SchemaFor(t)), k);
    case _ =>
  }

  // ---------------------------------------------------------------------------------------
  // Generated examples conform

  /** The example generated from the schema of t conforms to it. */
  predicate ExampleIsValid(t: Ty) {
    Conforms(SchemaFor(t), Example(SchemaFor(t)))
  }

  lemma LiteralExample(options: seq<Value>)
    requires |options| > 0
    ensures ExampleIsValid(TLiteral(options)) <==> !BoolBeforeNumber(options)
  {
    assert JsonEqual(options[0], options[0]);
  }

  lemma ListExample(elem: Ty)
    ensures ExampleIsValid(TList(elem)) <==> ExampleIsValid(elem)
  {
    var s, inner := SchemaFor(TList(elem)), Example(SchemaFor(elem));
    assert Example(s) == VList([inner]);
    ListConforms(s, SchemaFor(elem), inner);
  }

  lemma ListConforms(s: Schema, item: Schema, v: Value)
    requires s == EMPTY.(kind := Some(KArray), items := Some(item))
    ensures Conforms(s, VList([v])) <==> Conforms(item, v)
  {
    var list := VList([v]);
    assert list.items[0] == v;
  }

  lemma RequiredArePicked(fields: seq<Field>, entries: map<string, Value>)
    requires HoldsPicked(fields, entries)
    ensures forall k :: 0 <= k < |RequiredNames(fields)| ==> RequiredNames(fields)[k] in entries
  {
    forall k | 0 <= k < |RequiredNames(fields)| ensures RequiredNames(fields)[k] in entries {
      RequiredAreFields(fields, k);
      var i :| 0 <= i < |fields| && fields[i].name == RequiredNames(fields)[k] && fields[i].default.None?;
      assert HoldsIfPicked(fields, entries, i);
    }
  }

  lemma FieldsAreNamed(fields: seq<Field>, entries: map<string, Value>)
    requires forall k :: k in entries ==> IsField(fields, k)
    ensures forall k :: k in entries ==> Named(PropertiesOf(fields), k)
  {
    forall k | k in entries ensures Named(PropertiesOf(fields), k) {
      assert IsField(fields, k);
      var i :| 0 <= i < |fields| && fields[i].name == k;
      assert PropertiesOf(fields)[i].name == k;
    }
  }

  /** An object with all required names and no unnamed ones conforms when each named entry does. */
  lemma ObjectConforms(s: Schema, fields: seq<Field>, entries: map<string, Value>)
    requires s == EMPTY.(kind := Some(KObject), properties := s.properties, required := s.required, additional := Nothing)
    requires |s.properties| == |fields|
    requires forall i :: 0 <= i < |fields| ==> s.properties[i] == Property(fields[i].name, SchemaFor(fields[i].ty))
    requires forall k :: 0 <= k < |s.required| ==> s.required[k] in entries
    requires forall k :: k in entries ==> Named(s.properties, k)
    ensures Conforms(s, VDict(entries)) <==>
            forall i :: 0 <= i < |fields| && fields[i].name in entries ==> Conforms(SchemaFor(fields[i].ty), entries[fields[i].name])
  {
    if Conforms(s, VDict(entries)) {
      forall i | 0 <= i < |fields| && fields[i].name in entries
        ensures Conforms(SchemaFor(fields[i].ty), entries[fields[i].name])
      {
        assert s.properties[i].name in entries;
      }
    }
  }

  /** Entries of exactly the picked fields conform when each entry conforms to its own field's schema. */
  lemma PickedConform(cls: string, fields: seq<Field>, entries: map<string, Value>)
    requires HoldsPicked(fields, entries)
    ensures Conforms(SchemaFor(TData(cls, fields)), VDict(entries)) <==>
            forall i :: 0 <= i < |fields| && fields[i].name in entries ==> Conforms(SchemaFor(fields[i].ty), entries[fields[i].name])
  {
    var s := SchemaFor(TData(cls, fields));
    RequiredArePicked(fields, entries);
    FieldsAreNamed(fields, entries);
    ObjectConforms(s, fields, entries);
  }

  lemma DataExampleConforms(cls: string, fields: seq<Field>)
    requires Distinct(fields)
    ensures ExampleIsValid(TData(cls, fields)) <==>
            forall i :: 0 <= i < |fields| && Picked(fields, i) ==> ExampleIsValid(fields[i].ty)
  {
    DataExample(cls, fields);
    var entries := Example(SchemaFor(TData(cls, fields))).entries;
    PickedConform(cls, fields, entries);
    forall i | 0 <= i < |fields|
      ensures fields[i].name in entries <==> Picked(fields, i)
      ensures Picked(fields, i) ==> (Conforms(SchemaFor(fields[i].ty), entries[fields[i].name]) <==> ExampleIsValid(fields[i].ty))
    {
      assert HoldsIfPicked(fields, entries, i);
    }
  }

  lemma {:induction false} NullExample(t: Ty)
    requires Grammar(t) && Example(SchemaFor(t)).VNull?
    ensures Conforms(SchemaFor(t), VNull)
    decreases t
  {
    match t
    case TLiteral(options) => LiteralExample(options);
    case TUnion(arms) =>
      UnionExample(arms);
      NullExample(arms[FirstNonNull(arms)]);
      UnionConforms(arms, VNull);
    case TData(cls, fields) => DataExample(cls, fields);
    case _ =>
  }

  /**
    For every type of the grammar, the generated example conforms to its schema exactly when no
    literal the generator reaches puts a boolean before its numbers, or the example of the first arm
    of a union conforms to another arm.
  */
  lemma {:induction false} ExampleConforms(t: Ty)
    requires Grammar(t)
    ensures ExampleIsValid(t) <==> Safe(t)
    decreases t
  {
    match t
    case TList(elem) =>
      ExampleConforms(elem);
      ListExample(elem);
    case TDict(elem) => assert Example(SchemaFor(t)) == VDict(map[]);
    case TLiteral(options) => LiteralExample(options);
    case TData(cls, fields) =>
      forall i | 0 <= i < |fields| ensures ExampleIsValid(fields[i].ty) <==> Safe(fields[i].ty) {
        ExampleConforms(fields[i].ty);
      }
      DataExampleConforms(cls, fields);
    case TUnion(arms) => UnionExampleConforms(arms);
    case _ =>
  }

  lemma {:induction false} UnionExampleConforms(arms: seq<Ty>)
    requires Grammar(TUnion(arms))
    ensures ExampleIsValid(TUnion(arms)) <==> Safe(TUnion(arms))
    decreases arms
  {
    UnionExample(arms);
    var core := arms[FirstNonNull(arms)];
    var e := Example(SchemaFor(core));
    ExampleConforms(core);
    if IsOptional(arms) {
      OptionalConforms(arms, e);
      if e.VNull? { NullExample(core); }
    } else {
      ArmsConform(arms, e);
    }
  }

  /** The literal True, 1 gets the type "number", and its example True is not a number. */
  lemma BoolLiteralExample()
    ensures !ExampleIsValid(TLiteral([VBool(true), VInt(1)]))
  {
    var options := [VBool(true), VInt(1)];
    assert options[1] == VInt(1);
    LiteralExample(options);
  }

  /** The literal True, 1 as first arm of a union with bool: its example True conforms to the second arm. */
  lemma OtherArmRescues()
    ensures !Safe(TLiteral([VBool(true), VInt(1)]))
    ensures ExampleIsValid(TUnion([TLiteral([VBool(true), VInt(1)]), TBool]))
  {
    BoolLiteralExample();
    var literal := TLiteral([VBool(true), VInt(1)]);
    ExampleConforms(literal);
    RescuedBy(literal, TBool);
  }

  /** Two arms, the second of which admits the example of the first. */
  lemma RescuedBy(first: Ty, second: Ty)
    requires Grammar(TUnion([first, second])) && NoneFree([first, second])
    requires Conforms(SchemaFor(second), Example(SchemaFor(first)))
    ensures ExampleIsValid(TUnion([first, second]))
  {
    var arms := [first, second];
    assert arms[0] == first && arms[1] == second;
    UnionExampleConforms(arms);
    NoneFreeCount(arms);
    ArmsConform(arms, Example(SchemaFor(first)));
  }
}
