/**
  Every JSON value that conforms to the schema compiled from a type is accepted by the coercion to
  that type, except where an integer is too large for a float.
*/
module SchemaSoundness {
  import opened PluginTypes
  import opened JsonSchema

  // ---------------------------------------------------------------------------------------
  // The grammar

  /** `T | None`. */
  predicate IsOptional(arms: seq<Ty>) {
    |arms| == 2 && arms[0].TNone? != arms[1].TNone?
  }

  predicate NoneFree(arms: seq<Ty>) {
    |arms| > 0 && forall i :: 0 <= i < |arms| ==> !arms[i].TNone?
  }

  predicate Distinct(fields: seq<Field>) {
    forall i, j :: 0 <= i < j < |fields| ==> fields[i].name != fields[j].name
  }

  /** The finite types of the grammar; every union is `T | None` or free of None. */
  predicate Grammar(t: Ty)
    decreases t
  {
    match t
    case TList(elem) => Grammar(elem)
    case TDict(elem) => Grammar(elem)
    case TLiteral(options) => |options| > 0 && forall i :: 0 <= i < |options| ==> Scalar(options[i])
    case TData(_, fields) => Distinct(fields) && forall i :: 0 <= i < |fields| ==> Grammar(fields[i].ty)
    case TUnion(arms) =>
      (IsOptional(arms) || NoneFree(arms)) && forall i :: 0 <= i < |arms| ==> Grammar(arms[i])
    case _ => true
  }

  /** The only unions are `T | None`. */
  predicate Plain(t: Ty)
    decreases t
  {
    match t
    case TList(elem) => Plain(elem)
    case TDict(elem) => Plain(elem)
    case TData(_, fields) => forall i :: 0 <= i < |fields| ==> Plain(fields[i].ty)
    case TUnion(arms) => IsOptional(arms) && forall i :: 0 <= i < |arms| ==> Plain(arms[i])
    case _ => true
  }

  predicate HasFloat(t: Ty)
    decreases t
  {
    match t
    case TFloat => true
    case TList(elem) => HasFloat(elem)
    case TDict(elem) => HasFloat(elem)
    case TData(_, fields) => exists i :: 0 <= i < |fields| && HasFloat(fields[i].ty)
    case TUnion(arms) => exists i :: 0 <= i < |arms| && HasFloat(arms[i])
    case _ => false
  }

  /**
    Every integer at a float position fits a float. At a union the value is the null of the None arm,
    or it conforms to an arm other than None at whose float positions it fits.
  */
  predicate FitsAt(py: Python, t: Ty, v: Value)
    decreases t
  {
    match t
    case TFloat => v.VInt? ==> -(py.floatLimit as int) < v.n < py.floatLimit as int
    case TList(elem) => v.VList? ==> forall i :: 0 <= i < |v.items| ==> FitsAt(py, elem, v.items[i])
    case TDict(elem) => v.VDict? ==> forall k :: k in v.entries ==> FitsAt(py, elem, v.entries[k])
    case TData(_, fields) =>
      v.VDict? ==>
        forall i :: 0 <= i < |fields| && fields[i].name in v.entries ==> FitsAt(py, fields[i].ty, v.entries[fields[i].name])
    case TUnion(arms) =>
      || (v.VNull? && TNone in arms)
      || (exists i :: 0 <= i < |arms| && !arms[i].TNone? && Conforms(SchemaFor(arms[i]), v) && FitsAt(py, arms[i], v))
    case _ => true
  }

  // ---------------------------------------------------------------------------------------
  // Shape lemmas

  lemma OptionalCore(arms: seq<Ty>)
    requires IsOptional(arms)
    ensures NonNullCount(arms) == 1
    ensures FirstNonNull(arms) == if arms[0].TNone? then 1 else 0
  {
    assert NonNullCount(arms[1..][1..]) == 0;
    assert NonNullCount(arms[1..]) == if arms[1].TNone? then 0 else 1;
  }

  lemma {:induction false} NoneFreeCount(arms: seq<Ty>)
    requires forall i :: 0 <= i < |arms| ==> !arms[i].TNone?
    ensures NonNullCount(arms) == |arms|
  {
    if |arms| > 0 { NoneFreeCount(arms[1..]); }
  }

  lemma {:induction false} RequiredIff(fields: seq<Field>, i: nat)
    requires i < |fields| && fields[i].default.None?
    ensures fields[i].name in RequiredNames(fields)
  {
    if i < |fields| - 1 { RequiredIff(fields[..|fields| - 1], i); }
  }

  lemma {:induction false} UnionAccepts(py: Python, arms: seq<Ty>, v: Value, i: nat)
    requires i < |arms| && !arms[i].TNone? && Coerce(py, arms[i], v).Some?
    ensures CoerceUnion(py, arms, v).Some?
  {
    if i > 0 { UnionAccepts(py, arms[1..], v, i - 1); }
  }

  lemma {:induction false} FieldsAccept(py: Python, fields: seq<Field>, entries: map<string, Value>)
    requires forall i :: 0 <= i < |fields| ==> CoerceField(py, fields[i], entries).Some?
    ensures CoerceFields(py, fields, entries).Some?
  {
    if |fields| > 0 { FieldsAccept(py, fields[..|fields| - 1], entries); }
  }

  lemma {:induction false} FieldsReject(py: Python, fields: seq<Field>, entries: map<string, Value>, i: nat)
    requires i < |fields| && CoerceField(py, fields[i], entries).None?
    ensures CoerceFields(py, fields, entries).None?
  {
    if i < |fields| - 1 { FieldsReject(py, fields[..|fields| - 1], entries, i); }
  }

  lemma LiteralAccepts(py: Python, options: seq<Value>, v: Value)
    requires Conforms(SchemaFor(TLiteral(options)), v)
    ensures Coerce(py, TLiteral(options), v).Some?
  {
    var i :| 0 <= i < |options| && JsonEqual(v, options[i]);
    assert PyEqual(v, options[i]);
  }

  // ---------------------------------------------------------------------------------------
  // Soundness

  lemma {:induction false} FieldAccepts(py: Python, fields: seq<Field>, entries: map<string, Value>, cls: string, i: nat)
    requires i < |fields|
    requires Conforms(SchemaFor(TData(cls, fields)), VDict(entries))
    requires fields[i].name in entries && Conforms(SchemaFor(fields[i].ty), entries[fields[i].name]) ==>
               Coerce(py, fields[i].ty, entries[fields[i].name]).Some?
    ensures CoerceField(py, fields[i], entries).Some?
  {
    var s := SchemaFor(TData(cls, fields));
    assert s.properties[i] == Property(fields[i].name, SchemaFor(fields[i].ty));
    if fields[i].default.None? { RequiredIff(fields, i); }
  }

  /** Schema soundness. */
  lemma {:induction false} SchemaIsSound(py: Python, t: Ty, v: Value)
    requires Grammar(t) && Conforms(SchemaFor(t), v) && FitsAt(py, t, v)
    ensures Coerce(py, t, v).Some?
    decreases t
  {
    match t
    case TList(elem) =>
      forall i | 0 <= i < |v.items| ensures Coerce(py, elem, v.items[i]).Some? {
        SchemaIsSound(py, elem, v.items[i]);
      }
    case TDict(elem) =>
      forall k | k in v.entries ensures Coerce(py, elem, v.entries[k]).Some? {
        SchemaIsSound(py, elem, v.entries[k]);
      }
    case TLiteral(options) => LiteralAccepts(py, options, v);
    case TData(cls, fields) =>
      forall i | 0 <= i < |fields| ensures CoerceField(py, fields[i], v.entries).Some? {
        if fields[i].name in v.entries && Conforms(SchemaFor(fields[i].ty), v.entries[fields[i].name]) {
          SchemaIsSound(py, fields[i].ty, v.entries[fields[i].name]);
        }
        FieldAccepts(py, fields, v.entries, cls, i);
      }
      FieldsAccept(py, fields, v.entries);
    case TUnion(arms) => UnionIsSound(py, arms, v);
    case _ =>
  }

  /** A value that conforms to the schema of a union conforms to that of an arm, or is the null of `T | None`. */
  lemma ConformingArm(arms: seq<Ty>, v: Value) returns (k: nat)
    requires IsOptional(arms) || NoneFree(arms)
    requires Conforms(SchemaFor(TUnion(arms)), v)
    ensures k < |arms| && !arms[k].TNone?
    ensures Conforms(SchemaFor(arms[k]), v) || (v.VNull? && TNone in arms)
  {
    var s := SchemaFor(TUnion(arms));
    if IsOptional(arms) {
      OptionalCore(arms);
      k := FirstNonNull(arms);
      assert arms[1 - k] == TNone;
      assert s.anyOf == [SchemaFor(arms[k]), EMPTY.(kind := Some(KNull))];
      assert HasKind(KNull, v) ==> v.VNull?;
    } else {
      NoneFreeCount(arms);
      k :| 0 <= k < |s.anyOf| && Conforms(s.anyOf[k], v);
    }
  }

  lemma {:induction false} UnionIsSound(py: Python, arms: seq<Ty>, v: Value)
    requires forall i :: 0 <= i < |arms| ==> Grammar(arms[i])
    requires FitsAt(py, TUnion(arms), v)
    ensures Coerce(py, TUnion(arms), v).Some?
    decreases arms
  {
    if !(v.VNull? && TNone in arms) {
      var k := FittingArm(py, arms, v);
      SchemaIsSound(py, arms[k], v);
      UnionAccepts(py, arms, v, k);
    }
  }

  lemma FittingArm(py: Python, arms: seq<Ty>, v: Value) returns (k: nat)
    requires FitsAt(py, TUnion(arms), v) && !(v.VNull? && TNone in arms)
    ensures k < |arms| && !arms[k].TNone? && Conforms(SchemaFor(arms[k]), v) && FitsAt(py, arms[k], v)
  {
    k :| 0 <= k < |arms| && !arms[k].TNone? && Conforms(SchemaFor(arms[k]), v) && FitsAt(py, arms[k], v);
  }
}
