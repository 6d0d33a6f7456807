/**
  Where schema soundness stops: integers too large for a float, and unions of several arms with None.
*/
module SchemaLimits {
  import opened PluginTypes
  import opened JsonSchema
  import opened SchemaSoundness

  /** Every JSON value that conforms is accepted. */
  ghost predicate Sound(py: Python, t: Ty) {
    forall v :: IsJson(v) && Conforms(SchemaFor(t), v) ==> Coerce(py, t, v).Some?
  }

  lemma OptionalConforms(arms: seq<Ty>, v: Value)
    requires IsOptional(arms)
    ensures Conforms(SchemaFor(TUnion(arms)), v) <==> v.VNull? || Conforms(SchemaFor(arms[FirstNonNull(arms)]), v)
  {
    OptionalCore(arms);
    var s := SchemaFor(TUnion(arms));
    var core, nothing := SchemaFor(arms[FirstNonNull(arms)]), EMPTY.(kind := Some(KNull));
    assert s.anyOf == [core, nothing];
    assert s.anyOf[0] == core && s.anyOf[1] == nothing;
    assert Conforms(nothing, v) <==> v.VNull?;
  }

  lemma OptionalCoerce(py: Python, arms: seq<Ty>, v: Value)
    requires IsOptional(arms)
    ensures Coerce(py, TUnion(arms), v) ==
              if v.VNull? then Some(VNull) else Coerce(py, arms[FirstNonNull(arms)], v)
  {
    OptionalCore(arms);
    var k := FirstNonNull(arms);
    assert arms[1 - k] == TNone;
    assert CoerceUnion(py, arms[1..][1..], v) == None;
    assert arms[1..][0] == arms[1];
    assert CoerceUnion(py, arms[1..], v) == if arms[1].TNone? then None else Coerce(py, arms[1], v);
  }

  lemma LiteralInhabited(options: seq<Value>) returns (v: Value)
    requires |options| > 0 && forall i :: 0 <= i < |options| ==> Scalar(options[i])
    ensures v in options && Scalar(v) && Conforms(SchemaFor(TLiteral(options)), v)
  {
    var k := 0;
    if LiteralKind(options) == Some(KNumber) {
      k :| 0 <= k < |options| && !options[k].VBool?;
    }
    v := options[k];
    assert JsonEqual(v, options[k]);
  }

  /** Every type of the grammar without several-armed unions has a conforming JSON value. */
  lemma {:induction false} Inhabited(t: Ty) returns (v: Value)
    requires Grammar(t) && Plain(t)
    ensures IsJson(v) && Conforms(SchemaFor(t), v)
    decreases t, 1
  {
    match t
    case TAny => v := VNull;
    case TNone => v := VNull;
    case TBool => v := VBool(true);
    case TInt => v := VInt(1);
    case TFloat => v := VFloat(1.0);
    case TStr => v := VStr("x");
    case TList(_) => v := VList([]);
    case TDict(_) => v := VDict(map[]);
    case TLiteral(options) => v := LiteralInhabited(options);
    case TData(cls, fields) =>
      var entries := InhabitedFields(fields);
      DataConforms(cls, fields, entries);
      AllJson(fields, entries);
      v := VDict(entries);
    case TUnion(arms) =>
      v := VNull;
      OptionalConforms(arms, v);
  }

  /** Entries with a conforming value for each field and nothing else. */
  ghost predicate Fills(fields: seq<Field>, entries: map<string, Value>) {
    && (forall i :: 0 <= i < |fields| ==> FillsOne(fields[i], entries))
    && (forall k :: k in entries ==> IsField(fields, k))
  }

  ghost predicate FillsOne(f: Field, entries: map<string, Value>) {
    f.name in entries && IsJson(entries[f.name]) && Conforms(SchemaFor(f.ty), entries[f.name])
  }

  predicate IsField(fields: seq<Field>, name: string) {
    exists i :: 0 <= i < |fields| && fields[i].name == name
  }

  lemma {:induction false} InhabitedFields(fields: seq<Field>) returns (entries: map<string, Value>)
    requires Distinct(fields)
    requires forall i :: 0 <= i < |fields| ==> Grammar(fields[i].ty) && Plain(fields[i].ty)
    ensures Fills(fields, entries)
    decreases fields, 0
  {
    entries := map[];
    if |fields| > 0 {
      var before, last := fields[..|fields| - 1], fields[|fields| - 1];
      entries := InhabitedFields(before);
      var v := Inhabited(last.ty);
      FillOne(before, entries, last, v);
      assert before + [last] == fields;
      entries := entries[last.name := v];
    }
  }

  lemma FillOne(before: seq<Field>, entries: map<string, Value>, last: Field, v: Value)
    requires Distinct(before + [last]) && Fills(before, entries)
    requires IsJson(v) && Conforms(SchemaFor(last.ty), v)
    ensures Fills(before + [last], entries[last.name := v])
  {
    var fields, after := before + [last], entries[last.name := v];
    forall k | k in after ensures IsField(fields, k) {
      if k != last.name {
        assert IsField(before, k);
        var i :| 0 <= i < |before| && before[i].name == k;
        assert fields[i].name == k;
      } else {
        assert fields[|before|].name == k;
      }
    }
    forall i | 0 <= i < |before| ensures FillsOne(fields[i], after) {
      assert fields[|before|] == last && FillsOne(before[i], entries);
    }
    assert FillsOne(last, after);
  }

  lemma {:induction false} RequiredAreFields(fields: seq<Field>, k: nat)
    requires k < |RequiredNames(fields)|
    ensures exists i :: 0 <= i < |fields| && fields[i].name == RequiredNames(fields)[k] && fields[i].default.None?
  {
    var before := RequiredNames(fields[..|fields| - 1]);
    if k < |before| {
      RequiredAreFields(fields[..|fields| - 1], k);
      var i :| 0 <= i < |fields| - 1 && fields[..|fields| - 1][i].name == before[k] && fields[i].default.None?;
      assert fields[i].name == before[k];
    }
  }

  lemma DataConforms(cls: string, fields: seq<Field>, entries: map<string, Value>)
    requires Fills(fields, entries)
    ensures Conforms(SchemaFor(TData(cls, fields)), VDict(entries))
  {
    var s := SchemaFor(TData(cls, fields));
    forall k | 0 <= k < |s.required| ensures s.required[k] in entries {
      RequiredAreFields(fields, k);
      var i :| 0 <= i < |fields| && fields[i].name == s.required[k];
      assert FillsOne(fields[i], entries);
    }
    forall k | k in entries ensures Named(s.properties, k) {
      assert IsField(fields, k);
      var i :| 0 <= i < |fields| && fields[i].name == k;
      assert s.properties[i].name == k;
    }
    forall i | 0 <= i < |s.properties|
      ensures s.properties[i].name in entries ==> Conforms(s.properties[i].schema, entries[s.properties[i].name])
    {
      assert FillsOne(fields[i], entries);
    }
  }

  lemma FloatArm(arms: seq<Ty>) returns (k: nat)
    requires IsOptional(arms) && exists i :: 0 <= i < |arms| && HasFloat(arms[i])
    ensures NonNullCount(arms) == 1 && k == FirstNonNull(arms) && HasFloat(arms[k])
  {
    OptionalCore(arms);
    k := FirstNonNull(arms);
    assert !HasFloat(arms[1 - k]);
  }

  /** A type with a float position has a conforming value that coercion refuses. */
  lemma {:induction false} Overflow(py: Python, t: Ty) returns (v: Value)
    requires Grammar(t) && Plain(t) && HasFloat(t)
    ensures IsJson(v) && !v.VNull? && Conforms(SchemaFor(t), v) && Coerce(py, t, v).None?
    decreases t
  {
    match t
    case TFloat => v := VInt(py.floatLimit);
    case TList(elem) =>
      var w := Overflow(py, elem);
      v := VList([w]);
      assert v.items[0] == w;
    case TDict(elem) =>
      var w := Overflow(py, elem);
      v := VDict(map["k" := w]);
      assert v.entries["k"] == w;
    case TData(cls, fields) =>
      var i :| 0 <= i < |fields| && HasFloat(fields[i].ty);
      var w := Overflow(py, fields[i].ty);
      v := OverflowData(py, cls, fields, i, w);
    case TUnion(arms) =>
      var k := FloatArm(arms);
      v := Overflow(py, arms[k]);
      OptionalConforms(arms, v);
      OptionalCoerce(py, arms, v);
  }

  lemma OverflowData(py: Python, cls: string, fields: seq<Field>, i: nat, w: Value) returns (v: Value)
    requires Grammar(TData(cls, fields)) && Plain(TData(cls, fields)) && i < |fields|
    requires IsJson(w) && Conforms(SchemaFor(fields[i].ty), w) && Coerce(py, fields[i].ty, w).None?
    ensures IsJson(v) && v.VDict? && Conforms(SchemaFor(TData(cls, fields)), v)
    ensures Coerce(py, TData(cls, fields), v).None?
  {
    var entries := InhabitedFields(fields);
    var bad := entries[fields[i].name := w];
    Refill(fields, entries, i, w);
    DataConforms(cls, fields, bad);
    FieldsReject(py, fields, bad, i);
    AllJson(fields, bad);
    v := VDict(bad);
  }

  lemma AllJson(fields: seq<Field>, entries: map<string, Value>)
    requires Fills(fields, entries)
    ensures IsJson(VDict(entries))
  {
    forall k | k in entries ensures IsJson(entries[k]) {
      assert IsField(fields, k);
      var i :| 0 <= i < |fields| && fields[i].name == k;
      assert FillsOne(fields[i], entries);
    }
  }

  lemma Refill(fields: seq<Field>, entries: map<string, Value>, i: nat, w: Value)
    requires i < |fields| && Distinct(fields) && Fills(fields, entries)
    requires IsJson(w) && Conforms(SchemaFor(fields[i].ty), w)
    ensures Fills(fields, entries[fields[i].name := w])
  {
    var after := entries[fields[i].name := w];
    forall j | 0 <= j < |fields| ensures FillsOne(fields[j], after) {
      assert FillsOne(fields[j], entries);
      assert j != i ==> fields[j].name != fields[i].name;
    }
    forall k | k in after ensures IsField(fields, k) {
      assert k in entries ==> IsField(fields, k);
    }
  }

  /** Without a float position every conforming value fits. */
  lemma {:induction false} NoFloatFits(py: Python, t: Ty, v: Value)
    requires Grammar(t) && Conforms(SchemaFor(t), v) && !HasFloat(t)
    ensures FitsAt(py, t, v)
    decreases t
  {
    match t
    case TList(elem) =>
      forall i | 0 <= i < |v.items| ensures FitsAt(py, elem, v.items[i]) {
        NoFloatFits(py, elem, v.items[i]);
      }
    case TDict(elem) =>
      forall k | k in v.entries ensures FitsAt(py, elem, v.entries[k]) {
        NoFloatFits(py, elem, v.entries[k]);
      }
    case TData(cls, fields) =>
      forall i | 0 <= i < |fields| && fields[i].name in v.entries
        ensures FitsAt(py, fields[i].ty, v.entries[fields[i].name])
      {
        FieldConforms(cls, fields, v.entries, i);
        NoFloatFits(py, fields[i].ty, v.entries[fields[i].name]);
      }
    case TUnion(arms) =>
      var k := ConformingArm(arms, v);
      if !(v.VNull? && TNone in arms) { NoFloatFits(py, arms[k], v); }
    case _ =>
  }

  lemma FieldConforms(cls: string, fields: seq<Field>, entries: map<string, Value>, i: nat)
    requires i < |fields| && Conforms(SchemaFor(TData(cls, fields)), VDict(entries)) && fields[i].name in entries
    ensures Conforms(SchemaFor(fields[i].ty), entries[fields[i].name])
  {
    assert SchemaFor(TData(cls, fields)).properties[i] == Property(fields[i].name, SchemaFor(fields[i].ty));
  }

  /** Without several-armed unions an accepted conforming value fits at every float position. */
  lemma {:induction false} AcceptedFits(py: Python, t: Ty, v: Value)
    requires Grammar(t) && Plain(t) && Conforms(SchemaFor(t), v) && Coerce(py, t, v).Some?
    ensures FitsAt(py, t, v)
    decreases t
  {
    match t
    case TList(elem) =>
      forall i | 0 <= i < |v.items| ensures FitsAt(py, elem, v.items[i]) {
        AcceptedFits(py, elem, v.items[i]);
      }
    case TDict(elem) =>
      forall k | k in v.entries ensures FitsAt(py, elem, v.entries[k]) {
        AcceptedFits(py, elem, v.entries[k]);
      }
    case TData(cls, fields) =>
      forall i | 0 <= i < |fields| && fields[i].name in v.entries
        ensures FitsAt(py, fields[i].ty, v.entries[fields[i].name])
      {
        FieldConforms(cls, fields, v.entries, i);
        FieldIsAccepted(py, cls, fields, v.entries, i);
        AcceptedFits(py, fields[i].ty, v.entries[fields[i].name]);
      }
    case TUnion(arms) =>
      OptionalCore(arms);
      OptionalConforms(arms, v);
      OptionalCoerce(py, arms, v);
      if !v.VNull? { AcceptedFits(py, arms[FirstNonNull(arms)], v); }
      OptionalFits(py, arms, v);
    case _ =>
  }

  lemma OptionalFits(py: Python, arms: seq<Ty>, v: Value)
    requires IsOptional(arms)
    requires NonNullCount(arms) > 0 && !v.VNull? ==>
               Conforms(SchemaFor(arms[FirstNonNull(arms)]), v) && FitsAt(py, arms[FirstNonNull(arms)], v)
    ensures FitsAt(py, TUnion(arms), v)
  {
    OptionalCore(arms);
    assert arms[1 - FirstNonNull(arms)] == TNone;
  }

  lemma FieldIsAccepted(py: Python, cls: string, fields: seq<Field>, entries: map<string, Value>, i: nat)
    requires i < |fields| && fields[i].name in entries
    requires Coerce(py, TData(cls, fields), VDict(entries)).Some?
    ensures Coerce(py, fields[i].ty, entries[fields[i].name]).Some?
  {
    if CoerceField(py, fields[i], entries).None? { FieldsReject(py, fields, entries, i); }
  }

  /** Value by value: a conforming value is accepted exactly when its integers at float positions fit a float. */
  lemma AcceptedIffFits(py: Python, t: Ty, v: Value)
    requires Grammar(t) && Plain(t) && Conforms(SchemaFor(t), v)
    ensures Coerce(py, t, v).Some? <==> FitsAt(py, t, v)
  {
    if Coerce(py, t, v).Some? { AcceptedFits(py, t, v); }
    else if FitsAt(py, t, v) { SchemaIsSound(py, t, v); }
  }

  /** A union without None admits what one of its arms does. */
  lemma ArmsConform(arms: seq<Ty>, v: Value)
    requires NoneFree(arms)
    ensures FirstNonNull(arms) == 0
    ensures Conforms(SchemaFor(TUnion(arms)), v) <==> exists i :: 0 <= i < |arms| && Conforms(SchemaFor(arms[i]), v)
  {
    NoneFreeCount(arms);
    if Conforms(SchemaFor(TUnion(arms)), v) {
      var k := ConformingArm(arms, v);
    } else if i: nat :| i < |arms| && Conforms(SchemaFor(arms[i]), v) {
      assert SchemaFor(TUnion(arms)).anyOf[i] == SchemaFor(arms[i]);
    }
  }

  lemma SecondArmCoerces(py: Python, first: Ty, second: Ty, v: Value)
    requires !first.TNone? && !second.TNone? && Coerce(py, first, v).None? && Coerce(py, second, v).Some?
    ensures Coerce(py, TUnion([first, second]), v) == Coerce(py, second, v)
  {
    var arms := [first, second];
    assert arms[0] == first && arms[1..] == [second];
    assert CoerceUnion(py, [second], v) == Coerce(py, second, v);
    assert TNone !in arms;
  }

  lemma NeitherFits(py: Python, first: Ty, second: Ty, v: Value)
    requires !v.VNull? && !FitsAt(py, first, v) && !Conforms(SchemaFor(second), v)
    ensures !FitsAt(py, TUnion([first, second]), v)
  {
    var arms := [first, second];
    assert arms[0] == first && arms[1] == second;
  }

  /**
    With several arms the condition is sufficient only: an integer too large for a float conforms to
    the schema of `float | str`, does not fit, and is accepted as its text by the arm it does not conform to.
  */
  lemma TextArmAccepts(py: Python)
    ensures var t, v := TUnion([TFloat, TStr]), VInt(py.floatLimit as int);
            && Grammar(t) && Conforms(SchemaFor(t), v) && !FitsAt(py, t, v)
            && Coerce(py, t, v) == Some(VStr(py.text(v)))
  {
    var v := VInt(py.floatLimit as int);
    var arms := [TFloat, TStr];
    assert Conforms(SchemaFor(arms[0]), v);
    ArmsConform(arms, v);
    NeitherFits(py, TFloat, TStr, v);
    SecondArmCoerces(py, TFloat, TStr, v);
  }

  /** For types without several-armed unions, soundness without the range condition holds exactly when no position is a float. */
  lemma SoundIffNoFloat(py: Python, t: Ty)
    requires Grammar(t) && Plain(t)
    ensures Sound(py, t) <==> !HasFloat(t)
  {
    if HasFloat(t) {
      var v := Overflow(py, t);
    } else {
      forall v | IsJson(v) && Conforms(SchemaFor(t), v) ensures Coerce(py, t, v).Some? {
        NoFloatFits(py, t, v);
        SchemaIsSound(py, t, v);
      }
    }
  }

  /** In a union of several arms the None arm compiles to the schema that admits everything. */
  lemma NoneArmAdmitsAll(arms: seq<Ty>, v: Value)
    requires TNone in arms && NonNullCount(arms) >= 2
    ensures Conforms(SchemaFor(TUnion(arms)), v)
  {
    var i :| 0 <= i < |arms| && arms[i] == TNone;
    assert SchemaFor(TUnion(arms)).anyOf[i] == EMPTY;
    assert Conforms(EMPTY, v);
  }

  /** `int | list[int] | None` is unsound: its schema admits the empty object. */
  lemma SeveralArmsWithNoneUnsound(py: Python)
    ensures !Sound(py, TUnion([TInt, TList(TInt), TNone]))
  {
    var arms := [TInt, TList(TInt), TNone];
    var v := VDict(map[]);
    assert arms[1..] == [TList(TInt), TNone] && arms[1..][1..] == [TNone];
    assert NonNullCount([TNone]) == 0;
    assert NonNullCount([TList(TInt), TNone]) == 1;
    assert arms[2] == TNone;
    NoneArmAdmitsAll(arms, v);
    assert Coerce(py, TInt, v) == None;
    assert Coerce(py, TList(TInt), v) == None;
    assert CoerceUnion(py, [TNone], v) == None;
    assert CoerceUnion(py, [TList(TInt), TNone], v) == None;
    assert CoerceUnion(py, arms, v) == None;
    assert !arms[0].TNone?;
  }
}
