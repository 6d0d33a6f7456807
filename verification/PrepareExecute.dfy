/**
  The prepare phase coerces the request and serializes the result; the execute phase coerces the
  stored inputs again. Both phases see the same instance.
*/
module PrepareExecute {
  import opened PluginTypes
  import opened JsonSchema
  import opened SchemaSoundness
  import opened SchemaLimits

  /** PluginWorkflow.prepare: the inputs to store, or None when coercion raises. */
  function Prepare(py: Python, model: Option<Ty>, raw: Value): Option<Value> {
    if model.None? then Some(Jsonable(raw))
    else
      var instance := Coerce(py, model.value, raw);
      if instance.Some? then Some(Jsonable(instance.value)) else None
  }

  /** The inputs PluginWorkflow.execute hands to the plugin. */
  function ExecuteInputs(py: Python, model: Option<Ty>, stored: Value): Option<Value> {
    if model.None? then Some(stored) else Coerce(py, model.value, stored)
  }

  // ---------------------------------------------------------------------------------------
  // The values of a type

  ghost predicate Member(t: Ty, w: Value)
    decreases t
  {
    match t
    case TAny => IsJson(w)
    case TNone => IsJson(w)
    case TBool => w.VBool?
    case TInt => w.VInt?
    case TFloat => w.VFloat?
    case TStr => w.VStr?
    case TList(elem) => w.VList? && forall i :: 0 <= i < |w.items| ==> Member(elem, w.items[i])
    case TDict(elem) => w.VDict? && forall k :: k in w.entries ==> Member(elem, w.entries[k])
    case TLiteral(options) => IsJson(w) && exists i :: 0 <= i < |options| && PyEqual(w, options[i])
    case TData(cls, fields) =>
      && w.VInst?
      && w.cls == cls
      && (forall i :: 0 <= i < |fields| ==> fields[i].name in w.attrs && Member(fields[i].ty, w.attrs[fields[i].name]))
      && (forall k :: k in w.attrs ==> IsField(fields, k))
    case TUnion(arms) => exists i :: 0 <= i < |arms| && if arms[i].TNone? then w.VNull? else Member(arms[i], w)
  }

  /** Every default is a value of its field's type. */
  ghost predicate DefaultsTyped(t: Ty)
    decreases t
  {
    match t
    case TList(elem) => DefaultsTyped(elem)
    case TDict(elem) => DefaultsTyped(elem)
    case TData(_, fields) =>
      forall i :: 0 <= i < |fields| ==>
        && DefaultsTyped(fields[i].ty)
        && (fields[i].default.Some? ==> Member(fields[i].ty, fields[i].default.value))
    case TUnion(arms) => forall i :: 0 <= i < |arms| ==> DefaultsTyped(arms[i])
    case _ => true
  }

  // ---------------------------------------------------------------------------------------
  // Coercion lands in the type

  /** The attributes built so far belong to the fields seen so far. */
  ghost predicate TypedAttrs(fields: seq<Field>, attrs: map<string, Value>) {
    && (forall i :: 0 <= i < |fields| ==> TypedAttr(fields[i], attrs))
    && (forall k :: k in attrs ==> IsField(fields, k))
  }

  ghost predicate TypedAttr(f: Field, attrs: map<string, Value>) {
    f.name in attrs && Member(f.ty, attrs[f.name])
  }

  lemma AddAttr(before: seq<Field>, attrs: map<string, Value>, last: Field, w: Value)
    requires Distinct(before + [last]) && TypedAttrs(before, attrs) && Member(last.ty, w)
    ensures TypedAttrs(before + [last], attrs[last.name := w])
  {
    var fields, after := before + [last], attrs[last.name := w];
    forall i | 0 <= i < |before| ensures TypedAttr(fields[i], after) {
      assert fields[|before|] == last && TypedAttr(before[i], attrs);
    }
    forall k | k in after ensures IsField(fields, k) {
      if k != last.name {
        assert IsField(before, k);
        var i :| 0 <= i < |before| && before[i].name == k;
        assert fields[i].name == k;
      } else {
        assert fields[|before|].name == k;
      }
    }
  }

  ghost predicate FieldLands(py: Python, f: Field, entries: map<string, Value>) {
    CoerceField(py, f, entries).Some? ==> Member(f.ty, CoerceField(py, f, entries).value)
  }

  lemma {:induction false} CoercedFields(py: Python, fields: seq<Field>, entries: map<string, Value>)
    requires Distinct(fields)
    requires forall i :: 0 <= i < |fields| ==> FieldLands(py, fields[i], entries)
    requires CoerceFields(py, fields, entries).Some?
    ensures TypedAttrs(fields, CoerceFields(py, fields, entries).value)
  {
    if |fields| > 0 {
      var before, last := fields[..|fields| - 1], fields[|fields| - 1];
      CoercedFields(py, before, entries);
      assert FieldLands(py, last, entries);
      assert before + [last] == fields;
      AddAttr(before, CoerceFields(py, before, entries).value, last, CoerceField(py, last, entries).value);
    }
  }

  lemma {:induction false} CoercionLands(py: Python, t: Ty, v: Value)
    requires Grammar(t) && Plain(t) && DefaultsTyped(t) && IsJson(v)
    requires Coerce(py, t, v).Some?
    ensures Member(t, Coerce(py, t, v).value)
    decreases t
  {
    match t
    case TList(elem) =>
      forall i | 0 <= i < |v.items| ensures Member(elem, Coerce(py, elem, v.items[i]).value) {
        CoercionLands(py, elem, v.items[i]);
      }
    case TDict(elem) =>
      forall k | k in v.entries ensures Member(elem, Coerce(py, elem, v.entries[k]).value) {
        CoercionLands(py, elem, v.entries[k]);
      }
    case TData(cls, fields) =>
      forall i | 0 <= i < |fields| ensures FieldLands(py, fields[i], v.entries) {
        if CoerceField(py, fields[i], v.entries).Some? && fields[i].name in v.entries {
          CoercionLands(py, fields[i].ty, v.entries[fields[i].name]);
        }
      }
      CoercedFields(py, fields, v.entries);
      TypedIsMember(cls, fields, CoerceFields(py, fields, v.entries).value);
    case TUnion(arms) =>
      OptionalCore(arms);
      OptionalCoerce(py, arms, v);
      var k := FirstNonNull(arms);
      assert arms[1 - k].TNone?;
      if !v.VNull? { CoercionLands(py, arms[k], v); }
    case _ =>
  }

  lemma TypedIsMember(cls: string, fields: seq<Field>, attrs: map<string, Value>)
    ensures TypedAttrs(fields, attrs) <==> Member(TData(cls, fields), VInst(cls, attrs))
  {
    if Member(TData(cls, fields), VInst(cls, attrs)) {
      forall i | 0 <= i < |fields| ensures TypedAttr(fields[i], attrs) {
      }
    } else if TypedAttrs(fields, attrs) {
      forall i | 0 <= i < |fields| ensures fields[i].name in attrs && Member(fields[i].ty, attrs[fields[i].name]) {
        assert TypedAttr(fields[i], attrs);
      }
    }
  }

  // ---------------------------------------------------------------------------------------
  // Members survive serialization

  lemma {:induction false} JsonIsJsonable(v: Value)
    requires IsJson(v)
    ensures Jsonable(v) == v
    decreases v
  {
    match v
    case VList(items) =>
      forall i | 0 <= i < |items| ensures Jsonable(items[i]) == items[i] {
        JsonIsJsonable(items[i]);
      }
      assert Jsonable(v).items == items;
    case VDict(entries) =>
      forall k | k in entries ensures Jsonable(entries[k]) == entries[k] {
        JsonIsJsonable(entries[k]);
      }
      assert Jsonable(v).entries == entries;
    case _ =>
  }

  lemma {:induction false} FieldsAreRead(py: Python, fields: seq<Field>, attrs: map<string, Value>, entries: map<string, Value>)
    requires forall i :: 0 <= i < |fields| ==>
               fields[i].name in attrs && CoerceField(py, fields[i], entries) == Some(attrs[fields[i].name])
    ensures CoerceFields(py, fields, entries).Some?
    ensures forall k :: k in CoerceFields(py, fields, entries).value <==> IsField(fields, k)
    ensures forall k :: k in CoerceFields(py, fields, entries).value ==>
              k in attrs && CoerceFields(py, fields, entries).value[k] == attrs[k]
  {
    if |fields| > 0 {
      var before, last := fields[..|fields| - 1], fields[|fields| - 1];
      FieldsAreRead(py, before, attrs, entries);
      forall k ensures IsField(fields, k) <==> IsField(before, k) || k == last.name {
        IsFieldSplit(fields, k);
      }
    }
  }

  lemma IsFieldSplit(fields: seq<Field>, k: string)
    requires |fields| > 0
    ensures IsField(fields, k) <==> IsField(fields[..|fields| - 1], k) || k == fields[|fields| - 1].name
  {
    var before := fields[..|fields| - 1];
    if IsField(before, k) {
      var i :| 0 <= i < |before| && before[i].name == k;
      assert fields[i].name == k;
    }
    if IsField(fields, k) {
      var i :| 0 <= i < |fields| && fields[i].name == k;
      if i < |before| { assert before[i].name == k; }
    }
  }

  /** The attribute of field f is recovered from its serialization. */
  ghost predicate AttrSurvives(py: Python, f: Field, attrs: map<string, Value>) {
    f.name in attrs ==> Coerce(py, f.ty, Jsonable(attrs[f.name])) == Some(attrs[f.name])
  }

  lemma AttrsAreRead(py: Python, fields: seq<Field>, attrs: map<string, Value>, entries: map<string, Value>)
    requires TypedAttrs(fields, attrs)
    requires forall k :: k in attrs ==> k in entries && entries[k] == Jsonable(attrs[k])
    requires forall i :: 0 <= i < |fields| ==> AttrSurvives(py, fields[i], attrs)
    ensures CoerceFields(py, fields, entries) == Some(attrs)
  {
    forall i | 0 <= i < |fields|
      ensures fields[i].name in attrs && CoerceField(py, fields[i], entries) == Some(attrs[fields[i].name])
    {
      assert TypedAttr(fields[i], attrs) && AttrSurvives(py, fields[i], attrs);
    }
    FieldsAreRead(py, fields, attrs, entries);
    assert CoerceFields(py, fields, entries).value == attrs;
  }

  lemma DataSurvives(py: Python, cls: string, fields: seq<Field>, attrs: map<string, Value>)
    requires TypedAttrs(fields, attrs)
    requires forall i :: 0 <= i < |fields| ==> AttrSurvives(py, fields[i], attrs)
    ensures Coerce(py, TData(cls, fields), Jsonable(VInst(cls, attrs))) == Some(VInst(cls, attrs))
  {
    var entries := Jsonable(VInst(cls, attrs)).entries;
    assert forall k :: k in attrs ==> k in entries && entries[k] == Jsonable(attrs[k]);
    AttrsAreRead(py, fields, attrs, entries);
  }

  lemma ListSurvives(py: Python, elem: Ty, items: seq<Value>)
    requires forall i :: 0 <= i < |items| ==> Coerce(py, elem, Jsonable(items[i])) == Some(items[i])
    ensures Coerce(py, TList(elem), Jsonable(VList(items))) == Some(VList(items))
  {
    assert Coerce(py, TList(elem), Jsonable(VList(items))).value.items == items;
  }

  lemma DictSurvives(py: Python, elem: Ty, entries: map<string, Value>)
    requires forall k :: k in entries ==> Coerce(py, elem, Jsonable(entries[k])) == Some(entries[k])
    ensures Coerce(py, TDict(elem), Jsonable(VDict(entries))) == Some(VDict(entries))
  {
    assert Coerce(py, TDict(elem), Jsonable(VDict(entries))).value.entries == entries;
  }

  lemma {:induction false} MembersSurvive(py: Python, t: Ty, w: Value)
    requires Grammar(t) && Plain(t) && Member(t, w)
    ensures Coerce(py, t, Jsonable(w)) == Some(w)
    decreases t
  {
    match t
    case TAny => JsonIsJsonable(w);
    case TNone => JsonIsJsonable(w);
    case TLiteral(options) => JsonIsJsonable(w);
    case TList(elem) =>
      forall i | 0 <= i < |w.items| ensures Coerce(py, elem, Jsonable(w.items[i])) == Some(w.items[i]) {
        MembersSurvive(py, elem, w.items[i]);
      }
      ListSurvives(py, elem, w.items);
    case TDict(elem) =>
      forall k | k in w.entries ensures Coerce(py, elem, Jsonable(w.entries[k])) == Some(w.entries[k]) {
        MembersSurvive(py, elem, w.entries[k]);
      }
      DictSurvives(py, elem, w.entries);
    case TData(cls, fields) =>
      TypedIsMember(cls, fields, w.attrs);
      forall i | 0 <= i < |fields| ensures AttrSurvives(py, fields[i], w.attrs) {
        assert TypedAttr(fields[i], w.attrs);
        MembersSurvive(py, fields[i].ty, w.attrs[fields[i].name]);
      }
      DataSurvives(py, cls, fields, w.attrs);
    case TUnion(arms) =>
      OptionalCore(arms);
      OptionalCoerce(py, arms, Jsonable(w));
      var k := FirstNonNull(arms);
      assert arms[1 - k].TNone?;
      if !w.VNull? { MembersSurvive(py, arms[k], w); }
    case _ =>
  }

  // ---------------------------------------------------------------------------------------
  // Main results

  /** coerce after jsonable after coerce is coerce. */
  lemma CoercionIsStable(py: Python, t: Ty, v: Value)
    requires Grammar(t) && Plain(t) && DefaultsTyped(t) && IsJson(v)
    requires Coerce(py, t, v).Some?
    ensures Coerce(py, t, Jsonable(Coerce(py, t, v).value)) == Coerce(py, t, v)
  {
    CoercionLands(py, t, v);
    MembersSurvive(py, t, Coerce(py, t, v).value);
  }

  /** Serialization leaves no instance behind. */
  lemma {:induction false} JsonableIsJson(v: Value)
    ensures IsJson(Jsonable(v))
    decreases v
  {
    match v
    case VList(items) =>
      forall i | 0 <= i < |items| ensures IsJson(Jsonable(items[i])) { JsonableIsJson(items[i]); }
    case VDict(entries) =>
      forall k | k in entries ensures IsJson(Jsonable(entries[k])) { JsonableIsJson(entries[k]); }
    case VInst(_, attrs) =>
      forall k | k in attrs ensures IsJson(Jsonable(attrs[k])) { JsonableIsJson(attrs[k]); }
    case _ =>
  }

  /** Prepare stores JSON exactly when the plugin has no model or the request coerces to it. */
  lemma PrepareStoresJson(py: Python, model: Option<Ty>, raw: Value)
    ensures Prepare(py, model, raw).Some? <==> model.None? || Coerce(py, model.value, raw).Some?
    ensures Prepare(py, model, raw).Some? ==> IsJson(Prepare(py, model, raw).value)
  {
    JsonableIsJson(raw);
    if model.Some? && Coerce(py, model.value, raw).Some? { JsonableIsJson(Coerce(py, model.value, raw).value); }
  }

  /** Execute sees the instance prepare built from the request, and preparing stored inputs again changes nothing. */
  lemma ExecuteSeesPrepared(py: Python, model: Option<Ty>, raw: Value)
    requires model.Some? ==> Grammar(model.value) && Plain(model.value) && DefaultsTyped(model.value)
    requires IsJson(raw) && Prepare(py, model, raw).Some?
    ensures ExecuteInputs(py, model, Prepare(py, model, raw).value) ==
              if model.None? then Some(raw) else Coerce(py, model.value, raw)
    ensures Prepare(py, model, Prepare(py, model, raw).value) == Prepare(py, model, raw)
  {
    if model.Some? { CoercionIsStable(py, model.value, raw); }
    else { JsonIsJsonable(raw); }
  }

  /** `bool | str` is not stable: 1 becomes "1", which becomes True. */
  lemma SeveralArmsUnstable(py: Python)
    requires py.text(VInt(1)) == "1" && py.normalize("1") == "1"
    ensures Coerce(py, TUnion([TBool, TStr]), VInt(1)) == Some(VStr("1"))
    ensures Coerce(py, TUnion([TBool, TStr]), Jsonable(VStr("1"))) == Some(VBool(true))
  {
    var arms := [TBool, TStr];
    assert arms[1..] == [TStr];
    assert !arms[0].TNone?;
    assert Coerce(py, TBool, VInt(1)) == None;
    assert Coerce(py, TStr, VInt(1)) == Some(VStr("1"));
    assert CoerceUnion(py, [TStr], VInt(1)) == Some(VStr("1"));
    assert Coerce(py, TBool, VStr("1")) == Some(VBool(true));
  }
}
