/**
  The JSON Schema keywords plugin models compile to, with their meaning in JSON Schema 2020-12
  (Core sections 10.2.1.2, 10.3.1.2, 10.3.2.1 and 10.3.2.3; Validation sections 6.1.1, 6.1.2 and
  6.5.3), the compiler from types to schemas, and the generator of example requests.
*/
module JsonSchema {
  import opened PluginTypes

  datatype Kind = KString | KInteger | KNumber | KBoolean | KNull | KArray | KObject

  /** additionalProperties: absent, false, or a schema. */
  datatype Additional = Anything | Nothing | Conforming(schema: Schema)

  datatype Property = Property(name: string, schema: Schema)

  /** The keywords in use; an empty anyOf, properties or required list stands for an absent one. */
  datatype Schema = Schema(
    anyOf: seq<Schema>,
    options: Option<seq<Value>>,
    kind: Option<Kind>,
    items: Option<Schema>,
    properties: seq<Property>,
    required: seq<string>,
    additional: Additional
  )

  const EMPTY := Schema([], None, None, None, [], [], Anything)

  // ---------------------------------------------------------------------------------------
  // Validation

  predicate HasKind(k: Kind, v: Value) {
    match k
    case KString => v.VStr?
    case KInteger => v.VInt? || (v.VFloat? && v.x.Floor as real == v.x)
    case KNumber => v.VInt? || v.VFloat?
    case KBoolean => v.VBool?
    case KNull => v.VNull?
    case KArray => v.VList?
    case KObject => v.VDict?
  }

  predicate Named(properties: seq<Property>, name: string) {
    exists i :: 0 <= i < |properties| && properties[i].name == name
  }

  /** The value conforms to the schema. */
  predicate Conforms(s: Schema, v: Value)
    decreases s
  {
    && (|s.anyOf| > 0 ==> exists i :: 0 <= i < |s.anyOf| && Conforms(s.anyOf[i], v))
    && (s.options.Some? ==> exists i :: 0 <= i < |s.options.value| && JsonEqual(v, s.options.value[i]))
    && (s.kind.Some? ==> HasKind(s.kind.value, v))
    && (s.items.Some? && v.VList? ==> forall i :: 0 <= i < |v.items| ==> Conforms(s.items.value, v.items[i]))
    && (v.VDict? ==>
          && (forall i :: 0 <= i < |s.properties| && s.properties[i].name in v.entries ==>
                Conforms(s.properties[i].schema, v.entries[s.properties[i].name]))
          && (forall i :: 0 <= i < |s.required| ==> s.required[i] in v.entries)
          && (s.additional.Nothing? ==> forall k :: k in v.entries ==> Named(s.properties, k))
          && (s.additional.Conforming? ==>
                forall k :: k in v.entries && !Named(s.properties, k) ==> Conforms(s.additional.schema, v.entries[k])))
  }

  // ---------------------------------------------------------------------------------------
  // schema_for_type and schema_for_model

  function NonNullCount(arms: seq<Ty>): nat {
    if |arms| == 0 then 0 else (if arms[0].TNone? then 0 else 1) + NonNullCount(arms[1..])
  }

  function FirstNonNull(arms: seq<Ty>): (k: nat)
    requires NonNullCount(arms) > 0
    ensures k < |arms| && !arms[k].TNone? && forall i :: 0 <= i < k ==> arms[i].TNone?
  {
    if !arms[0].TNone? then 0 else 1 + FirstNonNull(arms[1..])
  }

  function LiteralKind(options: seq<Value>): Option<Kind> {
    if |options| == 0 then None
    else if forall i :: 0 <= i < |options| ==> options[i].VStr? then Some(KString)
    else if forall i :: 0 <= i < |options| ==> options[i].VBool? then Some(KBoolean)
    else if forall i :: 0 <= i < |options| ==> options[i].VInt? then Some(KInteger)
    else if forall i :: 0 <= i < |options| ==> PyNumber(options[i]).Some? then Some(KNumber)
    else None
  }

  function RequiredNames(fields: seq<Field>): seq<string> {
    if |fields| == 0 then []
    else
      RequiredNames(fields[..|fields| - 1])
      + (if fields[|fields| - 1].default.None? then [fields[|fields| - 1].name] else [])
  }

  function SchemaFor(t: Ty): Schema
    decreases t
  {
    match t
    case TAny => EMPTY
    case TNone => EMPTY
    case TBool => EMPTY.(kind := Some(KBoolean))
    case TInt => EMPTY.(kind := Some(KInteger))
    case TFloat => EMPTY.(kind := Some(KNumber))
    case TStr => EMPTY.(kind := Some(KString))
    case TList(elem) => EMPTY.(kind := Some(KArray), items := Some(SchemaFor(elem)))
    case TDict(elem) => EMPTY.(kind := Some(KObject), additional := Conforming(SchemaFor(elem)))
    case TLiteral(options) => EMPTY.(options := Some(options), kind := LiteralKind(options))
    case TData(_, fields) =>
      EMPTY.(
        kind := Some(KObject),
        properties := seq(|fields|, i requires 0 <= i < |fields| => Property(fields[i].name, SchemaFor(fields[i].ty))),
        required := RequiredNames(fields),
        additional := Nothing
      )
    case TUnion(arms) =>
      if NonNullCount(arms) == 1 && |arms| != 1 then
        EMPTY.(anyOf := [SchemaFor(arms[FirstNonNull(arms)]), EMPTY.(kind := Some(KNull))])
      else
        EMPTY.(anyOf := seq(|arms|, i requires 0 <= i < |arms| => SchemaFor(arms[i])))
  }

  // ---------------------------------------------------------------------------------------
  // _generate_example_from_schema

  predicate IsNullSchema(s: Schema) {
    s.kind == Some(KNull)
  }

  /** The first variant that is not the null schema. */
  function Preferred(variants: seq<Schema>): (k: nat)
    requires exists i :: 0 <= i < |variants| && !IsNullSchema(variants[i])
    ensures k < |variants| && !IsNullSchema(variants[k])
    ensures forall i :: 0 <= i < k ==> IsNullSchema(variants[i])
  {
    if !IsNullSchema(variants[0]) then 0 else 1 + Preferred(variants[1..])
  }

  function Example(s: Schema): Value
    decreases s, 1
  {
    if s.options.Some? && |s.options.value| > 0 then s.options.value[0]
    else if exists i :: 0 <= i < |s.anyOf| && !IsNullSchema(s.anyOf[i]) then
      Example(s.anyOf[Preferred(s.anyOf)])
    else if s.kind == Some(KObject) || |s.properties| > 0 then
      var filled := ExampleRequired(s.properties, s.required);
      VDict(if |filled| > 0 then filled else ExampleOptional(s.properties))
    else if s.kind.None? then VDict(map[])
    else
      match s.kind.value
      case KArray => VList([if s.items.Some? then Example(s.items.value) else VDict(map[])])
      case KString => VStr("x")
      case KInteger => VInt(1)
      case KNumber => VFloat(1.0)
      case KBoolean => VBool(true)
      case KNull => VNull
      case KObject => VDict(map[])
  }

  /** An example for each property that is required. */
  function ExampleRequired(properties: seq<Property>, required: seq<string>): map<string, Value>
    decreases properties, 0
  {
    if |properties| == 0 then map[]
    else
      var last := properties[|properties| - 1];
      var before := ExampleRequired(properties[..|properties| - 1], required);
      if last.name in required then before[last.name := Example(last.schema)] else before
  }

  /** With nothing required: the first property that lists its values. */
  function ExampleOptional(properties: seq<Property>): map<string, Value>
    decreases properties, 0
  {
    if |properties| == 0 then map[]
    else if properties[0].schema.options.Some? then map[properties[0].name := Example(properties[0].schema)]
    else ExampleOptional(properties[1..])
  }
}
