/**
  What coercion and the schema compiler mean for the values themselves: a conforming value is coerced
  without changing it, the schema admits what the type serializes to, and text is read as the value it spells.
*/
module CoercionMeaning {
  import opened PluginTypes
  import opened JsonSchema
  import opened SchemaSoundness
  import opened SchemaLimits
  import opened PrepareExecute
  import opened ExampleRequests

  // ---------------------------------------------------------------------------------------
  // The attributes of a coerced dataclass

  /** The keyword arguments are the coerced fields, one for each field. */
  lemma {:induction false} AttrIsCoerced(py: Python, fields: seq<Field>, entries: map<string, Value>, i: nat)
    requires Distinct(fields) && CoerceFields(py, fields, entries).Some? && i < |fields|
    ensures fields[i].name in CoerceFields(py, fields, entries).value
    ensures Some(CoerceFields(py, fields, entries).value[fields[i].name]) == CoerceField(py, fields[i], entries)
  {
    var before := fields[..|fields| - 1];
    if i < |before| {
      AttrIsCoerced(py, before, entries, i);
      assert fields[i].name != fields[|fields| - 1].name;
    }
  }

  /** Only the entries named by a field are read, so other keys of a request are ignored. */
  lemma {:induction false} OtherKeysIgnored(py: Python, fields: seq<Field>, entries: map<string, Value>, others: map<string, Value>)
    requires forall i :: 0 <= i < |fields| ==> SameEntry(fields[i].name, entries, others)
    ensures CoerceFields(py, fields, entries) == CoerceFields(py, fields, others)
  {
    if |fields| > 0 {
      OtherKeysIgnored(py, fields[..|fields| - 1], entries, others);
      assert SameEntry(fields[|fields| - 1].name, entries, others);
    }
  }

  predicate SameEntry(name: string, entries: map<string, Value>, others: map<string, Value>) {
    (name in entries <==> name in others) && (name in entries ==> entries[name] == others[name])
  }

  /** Coercing a request to a dataclass depends only on the entries its fields name. */
  lemma RequestIsReadByName(py: Python, cls: string, fields: seq<Field>, entries: map<string, Value>, others: map<string, Value>)
    requires forall i :: 0 <= i < |fields| ==> SameEntry(fields[i].name, entries, others)
    ensures Coerce(py, TData(cls, fields), VDict(entries)) == Coerce(py, TData(cls, fields), VDict(others))
  {
    OtherKeysIgnored(py, fields, entries, others);
  }

  // ---------------------------------------------------------------------------------------
  // A conforming value is kept

  /** w is v at every position v has, numbers compared by value; an instance may have further attributes. */
  ghost predicate Agrees(w: Value, v: Value)
    decreases w
  {
    match w
    case VInst(_, attrs) =>
      v == w || (v.VDict? && forall k :: k in v.entries ==> k in attrs && Agrees(attrs[k], v.entries[k]))
    case VList(items) =>
      v.VList? && |v.items| == |items| && forall i :: 0 <= i < |items| ==> Agrees(items[i], v.items[i])
    case VDict(entries) =>
      v.VDict? && v.entries.Keys == entries.Keys && forall k :: k in entries ==> Agrees(entries[k], v.entries[k])
    case VInt(_) => Number(v) == Number(w)
    case VFloat(_) => Number(v) == Number(w)
    case _ => v == w
  }

  lemma {:induction false} AgreesWithItself(v: Value)
    ensures Agrees(v, v)
    decreases v
  {
    match v
    case VList(items) =>
      forall i | 0 <= i < |items| ensures Agrees(items[i], items[i]) { AgreesWithItself(items[i]); }
    case VDict(entries) =>
      forall k | k in entries ensures Agrees(entries[k], entries[k]) { AgreesWithItself(entries[k]); }
    case _ =>
  }

  lemma IntegralIsKept(x: real)
    requires x.Floor as real == x
    ensures Truncate(x) as real == x
  {
    var n := x.Floor;
    assert -x == (-n) as real;
    assert (-x).Floor == -n;
  }

  /** Every key of a conforming request names a field. */
  lemma KeyIsField(cls: string, fields: seq<Field>, entries: map<string, Value>, k: string) returns (i: nat)
    requires Conforms(SchemaFor(TData(cls, fields)), VDict(entries)) && k in entries
    ensures i < |fields| && fields[i].name == k
  {
    var s := SchemaFor(TData(cls, fields));
    assert Named(s.properties, k);
    i :| 0 <= i < |s.properties| && s.properties[i].name == k;
  }

  ghost predicate EntryIsKept(py: Python, f: Field, entries: map<string, Value>) {
    f.name in entries && Coerce(py, f.ty, entries[f.name]).Some? && Agrees(Coerce(py, f.ty, entries[f.name]).value, entries[f.name])
  }

  lemma EntriesAreKept(py: Python, cls: string, fields: seq<Field>, entries: map<string, Value>)
    requires Distinct(fields) && Conforms(SchemaFor(TData(cls, fields)), VDict(entries))
    requires Coerce(py, TData(cls, fields), VDict(entries)).Some?
    requires forall i :: 0 <= i < |fields| && fields[i].name in entries ==> EntryIsKept(py, fields[i], entries)
    ensures Agrees(Coerce(py, TData(cls, fields), VDict(entries)).value, VDict(entries))
  {
    var attrs := CoerceFields(py, fields, entries).value;
    forall k | k in entries ensures k in attrs && Agrees(attrs[k], entries[k]) {
      var i := KeyIsField(cls, fields, entries, k);
      AttrIsCoerced(py, fields, entries, i);
      assert EntryIsKept(py, fields[i], entries);
    }
  }

  /**
    The schema is not too wide: coercing a conforming value changes nothing the request gave, for
    types without several-armed unions.
  */
  lemma {:induction false} ConformingIsKept(py: Python, t: Ty, v: Value)
    requires Grammar(t) && Plain(t) && Conforms(SchemaFor(t), v) && Coerce(py, t, v).Some?
    ensures Agrees(Coerce(py, t, v).value, v)
    decreases t
  {
    match t
    case TAny => AgreesWithItself(v);
    case TNone => AgreesWithItself(v);
    case TLiteral(_) => AgreesWithItself(v);
    case TInt => if v.VFloat? { IntegralIsKept(v.x); }
    case TList(elem) =>
      forall i | 0 <= i < |v.items| ensures Agrees(Coerce(py, elem, v.items[i]).value, v.items[i]) {
        ConformingIsKept(py, elem, v.items[i]);
      }
    case TDict(elem) =>
      forall k | k in v.entries ensures Agrees(Coerce(py, elem, v.entries[k]).value, v.entries[k]) {
        ConformingIsKept(py, elem, v.entries[k]);
      }
    case TData(cls, fields) =>
      forall i | 0 <= i < |fields| && fields[i].name in v.entries ensures EntryIsKept(py, fields[i], v.entries) {
        FieldConforms(cls, fields, v.entries, i);
        FieldIsAccepted(py, cls, fields, v.entries, i);
        ConformingIsKept(py, fields[i].ty, v.entries[fields[i].name]);
      }
      EntriesAreKept(py, cls, fields, v.entries);
    case TUnion(arms) =>
      OptionalCore(arms);
      OptionalConforms(arms, v);
      OptionalCoerce(py, arms, v);
      if !v.VNull? { ConformingIsKept(py, arms[FirstNonNull(arms)], v); }
    case _ =>
  }

  /** With several arms a conforming value may change: `str | int` takes 5 to its text. */
  lemma TextArmChanges(py: Python, n: int)
    ensures var t, v := TUnion([TStr, TInt]), VInt(n);
            && Grammar(t) && Conforms(SchemaFor(t), v)
            && Coerce(py, t, v) == Some(VStr(py.text(v))) && !Agrees(VStr(py.text(v)), v)
  {
    var v := VInt(n);
    SecondArmConforms(TStr, TInt, v);
    FirstArmCoerces(py, TStr, TInt, v);
  }

  lemma SecondArmConforms(first: Ty, second: Ty, v: Value)
    requires NoneFree([first, second]) && Conforms(SchemaFor(second), v)
    ensures Conforms(SchemaFor(TUnion([first, second])), v)
  {
    var arms := [first, second];
    assert arms[1] == second;
    ArmsConform(arms, v);
  }

  lemma FirstArmCoerces(py: Python, first: Ty, second: Ty, v: Value)
    requires !first.TNone? && !v.VNull? && Coerce(py, first, v).Some?
    ensures Coerce(py, TUnion([first, second]), v) == Coerce(py, first, v)
  {
    var arms := [first, second];
    assert arms[0] == first;
  }

  /** At a scalar position exactly the JSON values of that type conform, numbers by value. */
  lemma ScalarConforms(v: Value)
    ensures Conforms(SchemaFor(TBool), v) <==> v.VBool?
    ensures Conforms(SchemaFor(TStr), v) <==> v.VStr?
    ensures Conforms(SchemaFor(TFloat), v) <==> Number(v).Some?
    ensures Conforms(SchemaFor(TInt), v) <==> exists n: int :: JsonEqual(v, VInt(n))
  {
    KindConforms(KBoolean, v);
    KindConforms(KString, v);
    KindConforms(KNumber, v);
    KindConforms(KInteger, v);
    IntegerConforms(v);
  }

  lemma KindConforms(k: Kind, v: Value)
    ensures Conforms(EMPTY.(kind := Some(k)), v) <==> HasKind(k, v)
  {
  }

  lemma IntegerConforms(v: Value)
    ensures HasKind(KInteger, v) <==> exists n: int :: JsonEqual(v, VInt(n))
  {
    match v
    case VInt(n) => assert JsonEqual(v, VInt(n));
    case VFloat(x) =>
      if x.Floor as real == x { assert JsonEqual(v, VInt(x.Floor)); }
    case _ =>
  }

  // ---------------------------------------------------------------------------------------
  // What a type serializes to conforms

  /** A literal of numbers and booleans is typed "number". */
  predicate MixedNumbers(options: seq<Value>) {
    && (forall i :: 0 <= i < |options| ==> PyNumber(options[i]).Some?)
    && (exists i :: 0 <= i < |options| && !options[i].VBool?)
  }

  /** At its literal positions the value equals a listed one as JSON, and is no boolean where the others are numbers. */
  ghost predicate LiteralsListed(t: Ty, w: Value)
    requires Member(t, w)
    decreases t
  {
    match t
    case TList(elem) => forall i :: 0 <= i < |w.items| ==> LiteralsListed(elem, w.items[i])
    case TDict(elem) => forall k :: k in w.entries ==> LiteralsListed(elem, w.entries[k])
    case TLiteral(options) =>
      (exists i :: 0 <= i < |options| && JsonEqual(w, options[i])) && !(w.VBool? && MixedNumbers(options))
    case TData(_, fields) => forall i :: 0 <= i < |fields| ==> LiteralsListed(fields[i].ty, w.attrs[fields[i].name])
    case TUnion(arms) =>
      || (w.VNull? && TNone in arms)
      || (exists i :: 0 <= i < |arms| && !arms[i].TNone? && Member(arms[i], w) && LiteralsListed(arms[i], w))
    case _ => true
  }

  lemma LiteralConforms(options: seq<Value>, w: Value)
    requires |options| > 0 && IsJson(w)
    ensures Conforms(SchemaFor(TLiteral(options)), w) <==>
            (exists i :: 0 <= i < |options| && JsonEqual(w, options[i])) && !(w.VBool? && MixedNumbers(options))
  {
  }

  /** A literal is typed by what all of its values are, and left untyped when they are not all of one kind. */
  lemma LiteralIsTyped(options: seq<Value>)
    requires |options| > 0
    ensures LiteralKind(options) == Some(KString) <==> forall i :: 0 <= i < |options| ==> options[i].VStr?
    ensures LiteralKind(options) == Some(KBoolean) <==> forall i :: 0 <= i < |options| ==> options[i].VBool?
    ensures LiteralKind(options) == Some(KInteger) <==> forall i :: 0 <= i < |options| ==> options[i].VInt?
    ensures LiteralKind(options) == Some(KNumber) <==>
            MixedNumbers(options) && exists i :: 0 <= i < |options| && !options[i].VInt?
  {
    var first := options[0];
  }

  lemma NullSerialized(w: Value)
    ensures Jsonable(w).VNull? <==> w.VNull?
  {
  }

  lemma ListMemberConforms(elem: Ty, items: seq<Value>)
    ensures Conforms(SchemaFor(TList(elem)), Jsonable(VList(items))) <==>
            forall i :: 0 <= i < |items| ==> Conforms(SchemaFor(elem), Jsonable(items[i]))
  {
    var s, list := SchemaFor(TList(elem)), Jsonable(VList(items));
    assert s.items == Some(SchemaFor(elem));
    if Conforms(s, list) {
      forall i | 0 <= i < |items| ensures Conforms(SchemaFor(elem), Jsonable(items[i])) {
        assert list.items[i] == Jsonable(items[i]);
      }
    }
  }

  lemma DictMemberConforms(elem: Ty, entries: map<string, Value>)
    ensures Conforms(SchemaFor(TDict(elem)), Jsonable(VDict(entries))) <==>
            forall k :: k in entries ==> Conforms(SchemaFor(elem), Jsonable(entries[k]))
  {
    var s, dict := SchemaFor(TDict(elem)), Jsonable(VDict(entries));
    assert s.additional == Conforming(SchemaFor(elem)) && s.properties == [];
    if Conforms(s, dict) {
      forall k | k in entries ensures Conforms(SchemaFor(elem), Jsonable(entries[k])) {
        assert k in dict.entries && dict.entries[k] == Jsonable(entries[k]);
        assert !Named(s.properties, k);
      }
    }
  }

  /** An instance has an attribute for every field and no other, so its keys are as the schema wants them. */
  lemma DataMemberConforms(cls: string, fields: seq<Field>, attrs: map<string, Value>)
    requires Member(TData(cls, fields), VInst(cls, attrs))
    ensures Conforms(SchemaFor(TData(cls, fields)), Jsonable(VInst(cls, attrs))) <==>
            forall i :: 0 <= i < |fields| ==> Conforms(SchemaFor(fields[i].ty), Jsonable(attrs[fields[i].name]))
  {
    TypedIsMember(cls, fields, attrs);
    AttrsConform(cls, fields, attrs, map k | k in attrs :: Jsonable(attrs[k]));
  }

  lemma AttrsConform(cls: string, fields: seq<Field>, attrs: map<string, Value>, entries: map<string, Value>)
    requires TypedAttrs(fields, attrs) && entries.Keys == attrs.Keys && forall k :: k in attrs ==> entries[k] == Jsonable(attrs[k])
    ensures forall i :: 0 <= i < |fields| ==> fields[i].name in attrs
    ensures Conforms(SchemaFor(TData(cls, fields)), VDict(entries)) <==>
            forall i :: 0 <= i < |fields| ==> Conforms(SchemaFor(fields[i].ty), Jsonable(attrs[fields[i].name]))
  {
    forall i | 0 <= i < |fields| ensures fields[i].name in attrs { assert TypedAttr(fields[i], attrs); }
    KeysConform(cls, fields, entries);
    ObjectConforms(SchemaFor(TData(cls, fields)), fields, entries);
  }

  lemma KeysConform(cls: string, fields: seq<Field>, entries: map<string, Value>)
    requires forall i :: 0 <= i < |fields| ==> fields[i].name in entries
    requires forall k :: k in entries ==> IsField(fields, k)
    ensures var s := SchemaFor(TData(cls, fields));
            && (forall i :: 0 <= i < |s.required| ==> s.required[i] in entries)
            && (forall k :: k in entries ==> Named(s.properties, k))
  {
    var s := SchemaFor(TData(cls, fields));
    forall i | 0 <= i < |s.required| ensures s.required[i] in entries { RequiredAreFields(fields, i); }
    forall k | k in entries ensures Named(s.properties, k) {
      var i :| 0 <= i < |fields| && fields[i].name == k;
      assert s.properties[i].name == k;
    }
  }

  /**
    The schema is not too narrow: what a value of the type serializes to conforms exactly when its
    literals are listed as JSON values, for types without several-armed unions.
  */
  lemma {:induction false} SerializedConformsIff(t: Ty, w: Value)
    requires Grammar(t) && Plain(t) && Member(t, w)
    ensures Conforms(SchemaFor(t), Jsonable(w)) <==> LiteralsListed(t, w)
    decreases t
  {
    match t
    case TLiteral(options) =>
      JsonIsJsonable(w);
      LiteralConforms(options, w);
    case TList(elem) =>
      forall i | 0 <= i < |w.items|
        ensures Conforms(SchemaFor(elem), Jsonable(w.items[i])) <==> LiteralsListed(elem, w.items[i])
      {
        SerializedConformsIff(elem, w.items[i]);
      }
      ListMemberConforms(elem, w.items);
    case TDict(elem) =>
      forall k | k in w.entries
        ensures Conforms(SchemaFor(elem), Jsonable(w.entries[k])) <==> LiteralsListed(elem, w.entries[k])
      {
        SerializedConformsIff(elem, w.entries[k]);
      }
      DictMemberConforms(elem, w.entries);
    case TData(cls, fields) => AttrsConformIff(cls, fields, w);
    case TUnion(arms) =>
      OptionalCore(arms);
      if !w.VNull? { SerializedConformsIff(arms[FirstNonNull(arms)], w); }
      OptionalMemberConforms(arms, w);
    case _ =>
  }

  lemma {:induction false} AttrsConformIff(cls: string, fields: seq<Field>, w: Value)
    requires Grammar(TData(cls, fields)) && Plain(TData(cls, fields)) && Member(TData(cls, fields), w)
    ensures Conforms(SchemaFor(TData(cls, fields)), Jsonable(w)) <==> LiteralsListed(TData(cls, fields), w)
    decreases fields
  {
    forall i | 0 <= i < |fields|
      ensures Conforms(SchemaFor(fields[i].ty), Jsonable(w.attrs[fields[i].name])) <==>
              LiteralsListed(fields[i].ty, w.attrs[fields[i].name])
    {
      SerializedConformsIff(fields[i].ty, w.attrs[fields[i].name]);
    }
    DataMemberConforms(cls, fields, w.attrs);
  }

  lemma OptionalMemberConforms(arms: seq<Ty>, w: Value)
    requires IsOptional(arms) && Member(TUnion(arms), w)
    requires NonNullCount(arms) > 0 && Member(arms[FirstNonNull(arms)], w) && !w.VNull? ==>
               (Conforms(SchemaFor(arms[FirstNonNull(arms)]), Jsonable(w)) <==> LiteralsListed(arms[FirstNonNull(arms)], w))
    ensures Conforms(SchemaFor(TUnion(arms)), Jsonable(w)) <==> LiteralsListed(TUnion(arms), w)
  {
    OptionalCore(arms);
    OptionalConforms(arms, Jsonable(w));
    NullSerialized(w);
    OptionalListed(arms, w);
  }

  lemma OptionalListed(arms: seq<Ty>, w: Value)
    requires IsOptional(arms) && Member(TUnion(arms), w) && NonNullCount(arms) > 0
    ensures w.VNull? ==> LiteralsListed(TUnion(arms), w)
    ensures !w.VNull? ==> Member(arms[FirstNonNull(arms)], w)
    ensures !w.VNull? ==> (LiteralsListed(TUnion(arms), w) <==> LiteralsListed(arms[FirstNonNull(arms)], w))
  {
    OptionalCore(arms);
    var k := FirstNonNull(arms);
    assert arms[1 - k] == TNone;
    if !w.VNull? { OnlyArmListed(arms, k, w); }
  }

  lemma OnlyArmListed(arms: seq<Ty>, k: nat, w: Value)
    requires k < |arms| && !arms[k].TNone? && forall i :: 0 <= i < |arms| && i != k ==> arms[i].TNone?
    requires !w.VNull? && Member(TUnion(arms), w)
    ensures Member(arms[k], w)
    ensures LiteralsListed(TUnion(arms), w) <==> LiteralsListed(arms[k], w)
  {
  }

  // ---------------------------------------------------------------------------------------
  // Values of the type are left alone

  lemma FieldsAreFixed(py: Python, cls: string, fields: seq<Field>, w: Value)
    requires Member(TData(cls, fields), w)
    ensures Coerce(py, TData(cls, fields), w) == Some(w)
  {
  }

  /** Coercing a value of the type gives the value itself, so coercing twice is coercing once. */
  lemma {:induction false} MembersAreFixed(py: Python, t: Ty, w: Value)
    requires Grammar(t) && Plain(t) && Member(t, w)
    ensures Coerce(py, t, w) == Some(w)
    decreases t
  {
    match t
    case TList(elem) =>
      forall i | 0 <= i < |w.items| ensures Coerce(py, elem, w.items[i]) == Some(w.items[i]) {
        MembersAreFixed(py, elem, w.items[i]);
      }
      assert Coerce(py, t, w).value.items == w.items;
    case TDict(elem) =>
      forall k | k in w.entries ensures Coerce(py, elem, w.entries[k]) == Some(w.entries[k]) {
        MembersAreFixed(py, elem, w.entries[k]);
      }
      assert Coerce(py, t, w).value.entries == w.entries;
    case TData(cls, fields) => FieldsAreFixed(py, cls, fields, w);
    case TUnion(arms) =>
      OptionalCore(arms);
      OptionalCoerce(py, arms, w);
      var k := FirstNonNull(arms);
      assert arms[1 - k] == TNone;
      if !w.VNull? { MembersAreFixed(py, arms[k], w); }
    case _ =>
  }

  // ---------------------------------------------------------------------------------------
  // Text is read as the value it spells

  /** int() and float() read what str() wrote, and so does the truth-value reading, once normalized. */
  ghost predicate ReadsBack(py: Python) {
    && (forall n: int :: py.parseInt(py.text(VInt(n))) == Some(n))
    && (forall x: real :: py.parseFloat(py.text(VFloat(x))) == Some(x))
    && py.normalize(py.text(VBool(true))) == "true"
    && py.normalize(py.text(VBool(false))) == "false"
  }

  /**
    The request spells w: it is the serialization of w, except that any of its booleans and numbers
    may be written as text.
  */
  ghost predicate Spells(py: Python, t: Ty, v: Value, w: Value)
    decreases t
  {
    match t
    case TBool => v == w || v == VStr(py.text(w))
    case TInt => v == w || v == VStr(py.text(w))
    case TFloat => v == w || v == VStr(py.text(w))
    case TList(elem) =>
      v.VList? && w.VList? && |v.items| == |w.items| && forall i :: 0 <= i < |v.items| ==> Spells(py, elem, v.items[i], w.items[i])
    case TDict(elem) =>
      v.VDict? && w.VDict? && v.entries.Keys == w.entries.Keys && forall k :: k in v.entries ==> Spells(py, elem, v.entries[k], w.entries[k])
    case TData(_, fields) =>
      && v.VDict? && w.VInst?
      && forall i :: 0 <= i < |fields| ==>
           && fields[i].name in v.entries && fields[i].name in w.attrs
           && Spells(py, fields[i].ty, v.entries[fields[i].name], w.attrs[fields[i].name])
    case TUnion(arms) =>
      if w.VNull? then v.VNull?
      else !v.VNull? && exists i :: 0 <= i < |arms| && !arms[i].TNone? && Spells(py, arms[i], v, w)
    case _ => v == Jsonable(w)
  }

  lemma ScalarIsRead(py: Python, t: Ty, w: Value)
    requires ReadsBack(py) && Member(t, w) && (t.TBool? || t.TInt? || t.TFloat?)
    ensures Coerce(py, t, VStr(py.text(w))) == Some(w)
  {
  }

  lemma SpelledFields(py: Python, cls: string, fields: seq<Field>, entries: map<string, Value>, w: Value)
    requires Member(TData(cls, fields), w)
    requires forall i :: 0 <= i < |fields| ==> CoerceField(py, fields[i], entries) == Some(w.attrs[fields[i].name])
    ensures Coerce(py, TData(cls, fields), VDict(entries)) == Some(w)
  {
    FieldsAreRead(py, fields, w.attrs, entries);
    assert CoerceFields(py, fields, entries).value == w.attrs;
  }

  /** Any request that spells a value of the type is coerced to that value. */
  lemma {:induction false} SpellingIsRead(py: Python, t: Ty, v: Value, w: Value)
    requires Grammar(t) && Plain(t) && ReadsBack(py) && Member(t, w) && Spells(py, t, v, w)
    ensures Coerce(py, t, v) == Some(w)
    decreases t
  {
    match t
    case TBool => ScalarIsRead(py, t, w);
    case TInt => ScalarIsRead(py, t, w);
    case TFloat => ScalarIsRead(py, t, w);
    case TList(elem) =>
      forall i | 0 <= i < |v.items| ensures Coerce(py, elem, v.items[i]) == Some(w.items[i]) {
        SpellingIsRead(py, elem, v.items[i], w.items[i]);
      }
      ItemsAreRead(py, elem, v.items, w.items);
    case TDict(elem) =>
      forall k | k in v.entries ensures Coerce(py, elem, v.entries[k]) == Some(w.entries[k]) {
        SpellingIsRead(py, elem, v.entries[k], w.entries[k]);
      }
      EntriesAreRead(py, elem, v.entries, w.entries);
    case TData(cls, fields) =>
      forall i | 0 <= i < |fields| ensures CoerceField(py, fields[i], v.entries) == Some(w.attrs[fields[i].name]) {
        SpellingIsRead(py, fields[i].ty, v.entries[fields[i].name], w.attrs[fields[i].name]);
      }
      SpelledFields(py, cls, fields, v.entries, w);
    case TUnion(arms) =>
      OptionalCore(arms);
      if !w.VNull? { SpellingIsRead(py, arms[FirstNonNull(arms)], v, w); }
      OptionalIsRead(py, arms, v, w);
    case _ => MembersSurvive(py, t, w);
  }

  lemma ItemsAreRead(py: Python, elem: Ty, items: seq<Value>, read: seq<Value>)
    requires |items| == |read| && forall i :: 0 <= i < |items| ==> Coerce(py, elem, items[i]) == Some(read[i])
    ensures Coerce(py, TList(elem), VList(items)) == Some(VList(read))
  {
    assert Coerce(py, TList(elem), VList(items)).value.items == read;
  }

  lemma EntriesAreRead(py: Python, elem: Ty, entries: map<string, Value>, read: map<string, Value>)
    requires entries.Keys == read.Keys && forall k :: k in entries ==> Coerce(py, elem, entries[k]) == Some(read[k])
    ensures Coerce(py, TDict(elem), VDict(entries)) == Some(VDict(read))
  {
    assert Coerce(py, TDict(elem), VDict(entries)).value.entries == read;
  }

  lemma OptionalIsRead(py: Python, arms: seq<Ty>, v: Value, w: Value)
    requires IsOptional(arms) && (v.VNull? <==> w.VNull?)
    requires NonNullCount(arms) > 0 && !w.VNull? ==> Coerce(py, arms[FirstNonNull(arms)], v) == Some(w)
    ensures Coerce(py, TUnion(arms), v) == Some(w)
  {
    OptionalCore(arms);
    OptionalCoerce(py, arms, v);
  }

  /** A union of nothing but None leaves every value alone. */
  lemma OnlyNoneAcceptsAll(py: Python, arms: seq<Ty>, v: Value)
    requires forall i :: 0 <= i < |arms| ==> arms[i].TNone?
    ensures Coerce(py, TUnion(arms), v) == Some(v)
  {
  }

  /** Only a list becomes a list, only an object a dictionary, and only an object or an instance of the class a dataclass. */
  lemma ShapeIsDemanded(py: Python, elem: Ty, cls: string, fields: seq<Field>, v: Value)
    ensures Coerce(py, TList(elem), v).Some? ==> v.VList?
    ensures Coerce(py, TDict(elem), v).Some? ==> v.VDict?
    ensures Coerce(py, TData(cls, fields), v).Some? ==> v.VDict? || (v.VInst? && v.cls == cls)
  {
  }

  /** At an int position a fraction loses its fractional part, towards zero. */
  lemma FractionIsTruncated(py: Python, x: real)
    ensures Coerce(py, TInt, VFloat(x)).Some? && Coerce(py, TInt, VFloat(x)).value.VInt?
    ensures var n := Coerce(py, TInt, VFloat(x)).value.n as real;
            if x >= 0.0 then 0.0 <= n <= x < n + 1.0 else n - 1.0 < x <= n <= 0.0
  {
  }

  /** At an int or float position a boolean or a number keeps its value, unless it is a fraction at an int position or too large. */
  lemma NumberIsKept(py: Python, t: Ty, v: Value)
    requires (t.TInt? && (v.VBool? || v.VInt?)) || (t.TFloat? && PyNumber(v).Some?)
    requires Coerce(py, t, v).Some?
    ensures PyNumber(Coerce(py, t, v).value) == PyNumber(v)
  {
  }

  /** The truth values that can be written as text, and nothing else but a boolean, are read as booleans. */
  lemma TruthIsRead(py: Python, v: Value)
    ensures Coerce(py, TBool, v) == Some(VBool(true)) <==>
            v == VBool(true) || (v.VStr? && (py.normalize(v.s) == "true" || py.normalize(v.s) == "1" || py.normalize(v.s) == "yes"))
    ensures Coerce(py, TBool, v) == Some(VBool(false)) <==>
            v == VBool(false) || (v.VStr? && (py.normalize(v.s) == "false" || py.normalize(v.s) == "0" || py.normalize(v.s) == "no"))
    ensures Coerce(py, TBool, v).Some? ==> Coerce(py, TBool, v).value.VBool?
  {
  }

  /** At a str position anything becomes its text, which a bool, int or float position reads back. */
  lemma TextRoundTrip(py: Python, t: Ty, w: Value)
    requires ReadsBack(py) && Member(t, w) && (t.TBool? || t.TInt? || t.TFloat?)
    ensures Coerce(py, TStr, w).Some? && Coerce(py, t, Coerce(py, TStr, w).value) == Some(w)
  {
    ScalarIsRead(py, t, w);
  }
}
