/** Which resources come back from the tables as they went in. */
module StorageRoundTrips {
  import opened Wrappers
  import opened DateStrings
  import opened Documents

  // ---------------------------------------------------------------- the clients

  /** What the DynamoDB client stores: values that are undefined are removed. */
  function Marshalled(v: Value): Value
    decreases v, 1
  {
    match v
    case Arr(items) => Arr(MarshalledItems(items))
    case Obj(fields) => Obj(MarshalledFields(fields))
    case _ => v
  }

  function MarshalledItems(items: seq<Value>): seq<Value>
    decreases items, 0
  {
    if items == [] then []
    else (if items[0].Undefined? then [] else [Marshalled(items[0])]) + MarshalledItems(items[1..])
  }

  function MarshalledFields(fields: seq<Field>): seq<Field>
    decreases fields, 0
  {
    if fields == [] then []
    else
      (if fields[0].value.Undefined? then [] else [Field(fields[0].name, Marshalled(fields[0].value))])
      + MarshalledFields(fields[1..])
  }

  /** The Firestore client refuses a document with an undefined value in it. */
  predicate HasUndefined(v: Value)
    decreases v
  {
    match v
    case Undefined => true
    case Arr(items) => exists i :: 0 <= i < |items| && HasUndefined(items[i])
    case Obj(fields) => exists i :: 0 <= i < |fields| && HasUndefined(fields[i].value)
    case _ => false
  }

  /** A resource put into a DynamoDB table and got back. */
  function ThroughDynamoDb(v: Value): Value {
    Copied(FromDynamoDb, Marshalled(Copied(ToDynamoDb, v)))
  }

  /** A resource put into a Firestore collection and got back; None if putting it there fails. */
  function ThroughFirestore(v: Value): Option<Value> {
    if Throws(ToFirestore, v) || HasUndefined(Copied(ToFirestore, v)) then None
    else Some(Copied(FromFirestore, Copied(ToFirestore, v)))
  }

  // ---------------------------------------------------------------- names stay distinct

  lemma {:induction false} CopyKeepsNames(pass: Pass, v: Value)
    requires WithDistinctNames(v)
    ensures WithDistinctNames(Copied(pass, v))
    decreases v, 1
  {
    if v.Arr? {
      CopyItemsKeepsNames(pass, v.items);
    } else if v.Obj? {
      CopyFieldsKeepsNames(pass, v.fields);
    }
  }

  lemma {:induction false} CopyItemsKeepsNames(pass: Pass, items: seq<Value>)
    requires forall i | 0 <= i < |items| :: WithDistinctNames(items[i])
    ensures forall i | 0 <= i < |CopiedItems(pass, items)| :: WithDistinctNames(CopiedItems(pass, items)[i])
    decreases items, 0
  {
    if items != [] {
      CopyKeepsNames(pass, items[0]);
      CopyItemsKeepsNames(pass, items[1..]);
    }
  }

  lemma {:induction false} CopyFieldsKeepsNames(pass: Pass, fields: seq<Field>)
    requires DistinctNames(fields) && forall i | 0 <= i < |fields| :: WithDistinctNames(fields[i].value)
    ensures DistinctNames(CopiedFields(pass, fields))
    ensures forall i | 0 <= i < |CopiedFields(pass, fields)| :: WithDistinctNames(CopiedFields(pass, fields)[i].value)
    decreases fields, 0
  {
    if fields != [] {
      var rest := fields[1..];
      assert forall i | 0 <= i < |rest| :: rest[i] == fields[i + 1];
      CopyKeepsNames(pass, fields[0].value);
      CopyFieldsKeepsNames(pass, rest);
      CopiedNames(pass, rest, fields[0].name);
    }
  }

  lemma {:induction false} MarshalKeepsNames(v: Value)
    requires WithDistinctNames(v)
    ensures WithDistinctNames(Marshalled(v))
    decreases v, 1
  {
    if v.Arr? {
      MarshalItemsKeepsNames(v.items);
    } else if v.Obj? {
      MarshalFieldsKeepsNames(v.fields);
    }
  }

  lemma {:induction false} MarshalItemsKeepsNames(items: seq<Value>)
    requires forall i | 0 <= i < |items| :: WithDistinctNames(items[i])
    ensures forall i | 0 <= i < |MarshalledItems(items)| :: WithDistinctNames(MarshalledItems(items)[i])
    decreases items, 0
  {
    if items != [] {
      MarshalKeepsNames(items[0]);
      MarshalItemsKeepsNames(items[1..]);
    }
  }

  lemma {:induction false} MarshalFieldsKeepsNames(fields: seq<Field>)
    requires DistinctNames(fields) && forall i | 0 <= i < |fields| :: WithDistinctNames(fields[i].value)
    ensures DistinctNames(MarshalledFields(fields))
    ensures forall i | 0 <= i < |MarshalledFields(fields)| :: WithDistinctNames(MarshalledFields(fields)[i].value)
    decreases fields, 0
  {
    if fields != [] {
      var rest := fields[1..];
      assert forall i | 0 <= i < |rest| :: rest[i] == fields[i + 1];
      MarshalKeepsNames(fields[0].value);
      MarshalFieldsKeepsNames(rest);
      MarshalledNames(rest, fields[0].name);
    }
  }

  lemma {:induction false} MarshalledNames(fields: seq<Field>, name: string)
    requires forall i | 0 <= i < |fields| :: fields[i].name != name
    ensures !HasName(MarshalledFields(fields), name)
  {
    if fields != [] {
      MarshalledNames(fields[1..], name);
    }
  }

  // ---------------------------------------------------------------- what survives

  datatype Backend = DynamoDb | Firestore

  /** What a caller can check: there is no null, nothing undefined, no time that is none and no property
      called `__proto__`; and for DynamoDB years have four digits and no string looks like a time. */
  predicate Storable(b: Backend, v: Value)
    decreases v
  {
    match v
    case Str(text) => b.DynamoDb? ==> !IsDateString(text)
    case Num(_) => true
    case Bool(_) => true
    case Null => false
    case Undefined => false
    case Date(time) => time.At? && (b.DynamoDb? ==> time.instant.FourDigitYear())
    case Timestamp(_) => false
    case Arr(items) => forall i | 0 <= i < |items| :: Storable(b, items[i])
    case Obj(fields) => forall i | 0 <= i < |fields| :: fields[i].name != "__proto__" && Storable(b, fields[i].value)
  }

  // ---------------------------------------------------------------- DynamoDB

  function ItemsThroughDynamoDb(items: seq<Value>): seq<Value> {
    CopiedItems(FromDynamoDb, MarshalledItems(CopiedItems(ToDynamoDb, items)))
  }

  function FieldsThroughDynamoDb(fields: seq<Field>): seq<Field> {
    CopiedFields(FromDynamoDb, MarshalledFields(CopiedFields(ToDynamoDb, fields)))
  }

  lemma CopyItemsCons(pass: Pass, x: Value, rest: seq<Value>)
    requires !pass.ToFirestore?
    ensures CopiedItems(pass, [x] + rest) == [Copied(pass, x)] + CopiedItems(pass, rest)
  {
    assert ([x] + rest)[0] == x && ([x] + rest)[1..] == rest;
  }

  lemma MarshalItemsCons(x: Value, rest: seq<Value>)
    ensures MarshalledItems([x] + rest) == if x.Undefined? then MarshalledItems(rest) else [Marshalled(x)] + MarshalledItems(rest)
  {
    assert ([x] + rest)[0] == x && ([x] + rest)[1..] == rest;
  }

  lemma ItemsOneByOne(x: Value, rest: seq<Value>)
    ensures ItemsThroughDynamoDb([x] + rest)
         == if Copied(ToDynamoDb, x).Undefined? then ItemsThroughDynamoDb(rest) else [ThroughDynamoDb(x)] + ItemsThroughDynamoDb(rest)
  {
    var y, more := Copied(ToDynamoDb, x), CopiedItems(ToDynamoDb, rest);
    CopyItemsCons(ToDynamoDb, x, rest);
    MarshalItemsCons(y, more);
    if !y.Undefined? {
      CopyItemsCons(FromDynamoDb, Marshalled(y), MarshalledItems(more));
    }
  }

  lemma CopyFieldsCons(pass: Pass, f: Field, rest: seq<Field>)
    requires !pass.ToFirestore?
    ensures CopiedFields(pass, [f] + rest)
         == if f.name == "__proto__" then CopiedFields(pass, rest)
            else [Field(f.name, Copied(pass, f.value))] + CopiedFields(pass, rest)
  {
    assert ([f] + rest)[0] == f && ([f] + rest)[1..] == rest;
  }

  lemma MarshalFieldsCons(f: Field, rest: seq<Field>)
    ensures MarshalledFields([f] + rest)
         == if f.value.Undefined? then MarshalledFields(rest) else [Field(f.name, Marshalled(f.value))] + MarshalledFields(rest)
  {
    assert ([f] + rest)[0] == f && ([f] + rest)[1..] == rest;
  }

  lemma FieldsOneByOne(f: Field, rest: seq<Field>)
    ensures FieldsThroughDynamoDb([f] + rest)
         == if f.name == "__proto__" || Copied(ToDynamoDb, f.value).Undefined? then FieldsThroughDynamoDb(rest)
            else [Field(f.name, ThroughDynamoDb(f.value))] + FieldsThroughDynamoDb(rest)
  {
    var g, more := Field(f.name, Copied(ToDynamoDb, f.value)), CopiedFields(ToDynamoDb, rest);
    CopyFieldsCons(ToDynamoDb, f, rest);
    if f.name != "__proto__" {
      MarshalFieldsCons(g, more);
      if !g.value.Undefined? {
        CopyFieldsCons(FromDynamoDb, Field(g.name, Marshalled(g.value)), MarshalledFields(more));
      }
    }
  }

  lemma TimeThroughDynamoDb(time: Time)
    requires WellFormed(Date(time))
    ensures ThroughDynamoDb(Date(time)) == Date(time) <==> Storable(DynamoDb, Date(time))
    ensures !Copied(ToDynamoDb, Date(time)).Undefined?
  {
    if time.At? {
      IsoIsDateString(time.instant);
      if time.instant.FourDigitYear() {
        NewDateInverts(time.instant);
      }
      assert Copied(ToDynamoDb, Date(time)) == Str(ToIsoString(time.instant));
    } else {
      assert Copied(ToDynamoDb, Date(time)) == Obj([]);
    }
  }

  /** A value that is an element or a property comes back as it was exactly when it is storable. */
  lemma {:induction false} ValueThroughDynamoDb(v: Value)
    requires WellFormed(v)
    ensures ThroughDynamoDb(v) == v && !Copied(ToDynamoDb, v).Undefined? <==> Storable(DynamoDb, v)
    decreases v, 1
  {
    match v
    case Date(time) => TimeThroughDynamoDb(time);
    case Arr(items) => ItemsExactly(items);
    case Obj(fields) => FieldsExactly(fields);
    case _ =>
  }

  lemma {:induction false} ItemsExactly(items: seq<Value>)
    requires forall i | 0 <= i < |items| :: WellFormed(items[i])
    ensures |ItemsThroughDynamoDb(items)| <= |items|
    ensures ItemsThroughDynamoDb(items) == items <==> forall i | 0 <= i < |items| :: Storable(DynamoDb, items[i])
    decreases items, 0
  {
    if items != [] {
      var x, rest := items[0], items[1..];
      assert items == [x] + rest;
      ItemsOneByOne(x, rest);
      ValueThroughDynamoDb(x);
      ItemsExactly(rest);
      AllOf(x, rest, (y: Value) => Storable(DynamoDb, y));
      if !Copied(ToDynamoDb, x).Undefined? {
        SameWithFirst(ThroughDynamoDb(x), ItemsThroughDynamoDb(rest), x, rest);
      }
    }
  }

  lemma {:induction false} FieldsExactly(fields: seq<Field>)
    requires forall i | 0 <= i < |fields| :: WellFormed(fields[i].value)
    ensures |FieldsThroughDynamoDb(fields)| <= |fields|
    ensures FieldsThroughDynamoDb(fields) == fields
       <==> forall i | 0 <= i < |fields| :: fields[i].name != "__proto__" && Storable(DynamoDb, fields[i].value)
    decreases fields, 0
  {
    if fields != [] {
      var f, rest := fields[0], fields[1..];
      assert fields == [f] + rest;
      FieldsOneByOne(f, rest);
      ValueThroughDynamoDb(f.value);
      FieldsExactly(rest);
      AllOf(f, rest, (g: Field) => g.name != "__proto__" && Storable(DynamoDb, g.value));
      if f.name != "__proto__" && !Copied(ToDynamoDb, f.value).Undefined? {
        SameWithFirst(Field(f.name, ThroughDynamoDb(f.value)), FieldsThroughDynamoDb(rest), f, rest);
      }
    }
  }

  lemma AllOf<T>(x: T, rest: seq<T>, p: T -> bool)
    ensures var all := [x] + rest; (forall i | 0 <= i < |all| :: p(all[i])) <==> p(x) && forall i | 0 <= i < |rest| :: p(rest[i])
  {
    var all := [x] + rest;
    assert all[0] == x;
    assert forall i | 0 <= i < |rest| :: rest[i] == all[i + 1];
    assert forall i | 1 <= i < |all| :: all[i] == rest[i - 1];
  }

  lemma SameWithFirst<T>(a: T, s: seq<T>, b: T, t: seq<T>)
    ensures [a] + s == [b] + t <==> a == b && s == t
  {
    assert ([a] + s)[0] == a && ([b] + t)[0] == b && ([a] + s)[1..] == s && ([b] + t)[1..] == t;
  }

  /** A resource comes back from a DynamoDB table as it was put exactly when it is storable there. */
  lemma DynamoDbRoundTripExactly(v: Value)
    requires WellFormed(v) && v.Obj?
    ensures ThroughDynamoDb(v) == v <==> Storable(DynamoDb, v)
  {
    ValueThroughDynamoDb(v);
  }

  // ---------------------------------------------------------------- Firestore

  function ItemsThroughFirestore(items: seq<Value>): seq<Value> {
    CopiedItems(FromFirestore, CopiedItems(ToFirestore, items))
  }

  function FieldsThroughFirestore(fields: seq<Field>): seq<Field> {
    CopiedFields(FromFirestore, CopiedFields(ToFirestore, fields))
  }

  /** Nothing throws, and the value comes back as it was. */
  predicate Survives(v: Value) {
    && !HasInvalidTime(v) && !v.Undefined? && !HasUndefined(Copied(ToFirestore, v))
    && Copied(FromFirestore, Copied(ToFirestore, v)) == v
  }

  /** All the elements survive, and with them the array. */
  predicate ItemsSurvive(items: seq<Value>) {
    && (forall i | 0 <= i < |items| :: !HasInvalidTime(items[i]))
    && (forall i | 0 <= i < |CopiedItems(ToFirestore, items)| :: !HasUndefined(CopiedItems(ToFirestore, items)[i]))
    && ItemsThroughFirestore(items) == items
  }

  predicate FieldsSurvive(fields: seq<Field>) {
    && (forall i | 0 <= i < |fields| :: !HasInvalidTime(fields[i].value))
    && (forall i | 0 <= i < |CopiedFields(ToFirestore, fields)| :: !HasUndefined(CopiedFields(ToFirestore, fields)[i].value))
    && FieldsThroughFirestore(fields) == fields
  }

  lemma ItemsSurviveOneByOne(x: Value, rest: seq<Value>)
    ensures ItemsSurvive([x] + rest) <==> Survives(x) && ItemsSurvive(rest)
  {
    var items, y, more := [x] + rest, Copied(ToFirestore, x), CopiedItems(ToFirestore, rest);
    assert items[0] == x && items[1..] == rest;
    AllOf(x, rest, (v: Value) => !HasInvalidTime(v));
    if !(x.Undefined? && more == []) {
      assert CopiedItems(ToFirestore, items) == [y] + more;
      CopiesSurvive(x, rest, y, more);
    }
  }

  lemma CopiesSurvive(x: Value, rest: seq<Value>, y: Value, more: seq<Value>)
    ensures (forall i | 0 <= i < |[y] + more| :: !HasUndefined(([y] + more)[i]))
       <==> !HasUndefined(y) && forall i | 0 <= i < |more| :: !HasUndefined(more[i])
    ensures CopiedItems(FromFirestore, [y] + more) == [x] + rest
       <==> Copied(FromFirestore, y) == x && CopiedItems(FromFirestore, more) == rest
  {
    AllOf(y, more, (v: Value) => !HasUndefined(v));
    CopyItemsCons(FromFirestore, y, more);
    SameWithFirst(Copied(FromFirestore, y), CopiedItems(FromFirestore, more), x, rest);
  }

  lemma FieldsSurviveOneByOne(f: Field, rest: seq<Field>)
    ensures FieldsSurvive([f] + rest) <==> f.name != "__proto__" && Survives(f.value) && FieldsSurvive(rest)
  {
    var fields, g, more := [f] + rest, Field(f.name, Copied(ToFirestore, f.value)), CopiedFields(ToFirestore, rest);
    assert fields[0] == f && fields[1..] == rest;
    AllOf(f, rest, (h: Field) => !HasInvalidTime(h.value));
    if !f.value.Undefined? && f.name != "__proto__" {
      assert CopiedFields(ToFirestore, fields) == [g] + more;
      AllOf(g, more, (h: Field) => !HasUndefined(h.value));
      CopyFieldsCons(FromFirestore, g, more);
      SameWithFirst(Field(f.name, Copied(FromFirestore, g.value)), CopiedFields(FromFirestore, more), f, rest);
    }
  }

  lemma {:induction false} ValueThroughFirestore(v: Value)
    requires WellFormed(v)
    ensures Survives(v) <==> Storable(Firestore, v)
    decreases v, 1
  {
    match v
    case Arr(items) =>
      ItemsSurviveExactly(items);
      assert Survives(v) <==> ItemsSurvive(items);
    case Obj(fields) =>
      FieldsSurviveExactly(fields);
      assert Survives(v) <==> FieldsSurvive(fields);
    case _ =>
  }

  lemma {:induction false} ItemsSurviveExactly(items: seq<Value>)
    requires forall i | 0 <= i < |items| :: WellFormed(items[i])
    ensures ItemsSurvive(items) <==> forall i | 0 <= i < |items| :: Storable(Firestore, items[i])
    decreases items, 0
  {
    if items != [] {
      var x, rest := items[0], items[1..];
      assert items == [x] + rest;
      ValueThroughFirestore(x);
      ItemsSurviveExactly(rest);
      ItemsSurviveOneByOne(x, rest);
      AllOf(x, rest, (y: Value) => Storable(Firestore, y));
    }
  }

  lemma {:induction false} FieldsSurviveExactly(fields: seq<Field>)
    requires forall i | 0 <= i < |fields| :: WellFormed(fields[i].value)
    ensures FieldsSurvive(fields) <==> forall i | 0 <= i < |fields| :: fields[i].name != "__proto__" && Storable(Firestore, fields[i].value)
    decreases fields, 0
  {
    if fields != [] {
      var f, rest := fields[0], fields[1..];
      assert fields == [f] + rest;
      ValueThroughFirestore(f.value);
      FieldsSurviveExactly(rest);
      FieldsSurviveOneByOne(f, rest);
      AllOf(f, rest, (g: Field) => g.name != "__proto__" && Storable(Firestore, g.value));
    }
  }

  /** A resource comes back from a Firestore collection as it was put exactly when it is storable there,
      whatever its years are and whatever its strings look like. */
  lemma FirestoreRoundTripExactly(v: Value)
    requires WellFormed(v) && v.Obj?
    ensures ThroughFirestore(v) == Some(v) <==> Storable(Firestore, v)
  {
    ValueThroughFirestore(v);
  }

  // ---------------------------------------------------------------- what becomes of the others

  /** An object with one property. */
  function Single(name: string, v: Value): Value {
    Obj([Field(name, v)])
  }

  lemma SingleCopied(pass: Pass, name: string, v: Value)
    requires name != "__proto__"
    ensures Copied(pass, Single(name, v)) == if pass.Skips(v) then Obj([]) else Single(name, Copied(pass, v))
  {
    CopiedFieldsCons(pass, Field(name, v), []);
    assert [Field(name, v)] + [] == [Field(name, v)];
    assert CopiedField(pass, Field(name, v)) + [] == CopiedField(pass, Field(name, v));
  }

  lemma SingleMarshalled(name: string, v: Value)
    ensures Marshalled(Single(name, v)) == if v.Undefined? then Obj([]) else Single(name, Marshalled(v))
  {
    var one := if v.Undefined? then [] else [Field(name, Marshalled(v))];
    assert [Field(name, v)][1..] == [];
    assert MarshalledFields([Field(name, v)]) == one + MarshalledFields([]);
    assert one + [] == one;
  }

  /** From DynamoDB: null is lost with its property, as is a property named `__proto__`; a time that is none comes
      back as an object without properties; one whose year has not four digits as its text; and a text that looks
      like a time as that time. */
  lemma LostInDynamoDb(name: string, v: Value)
    requires name != "__proto__"
    ensures v.Null? || v.Undefined? ==> ThroughDynamoDb(Single(name, v)) == Obj([])
    ensures v == Date(Invalid) ==> ThroughDynamoDb(Single(name, v)) == Single(name, Obj([]))
    ensures v.Date? && v.time.At? && v.time.instant.InRange() && !v.time.instant.FourDigitYear()
         ==> ThroughDynamoDb(Single(name, v)) == Single(name, Str(ToIsoString(v.time.instant)))
    ensures v.Str? && IsDateString(v.text) ==> ThroughDynamoDb(Single(name, v)) == Single(name, Date(NewDate(v.text)))
    ensures ThroughDynamoDb(Single("__proto__", v)) == Obj([])
  {
    SingleThroughDynamoDb(name, v);
    ProtoIsLostInDynamoDb(v);
    if v.Date? && v.time.At? && v.time.instant.InRange() && !v.time.instant.FourDigitYear() {
      IsoIsDateString(v.time.instant);
    }
    if v == Date(Invalid) {
      assert CopiedFields(FromDynamoDb, []) == [];
    }
  }

  lemma SingleThroughDynamoDb(name: string, v: Value)
    requires name != "__proto__"
    ensures ThroughDynamoDb(Single(name, v))
         == if Copied(ToDynamoDb, v).Undefined? then Obj([]) else Single(name, ThroughDynamoDb(v))
  {
    var copy := Copied(ToDynamoDb, v);
    SingleCopied(ToDynamoDb, name, v);
    SingleMarshalled(name, copy);
    SingleCopied(FromDynamoDb, name, Marshalled(copy));
    assert CopiedFields(FromDynamoDb, []) == [];
  }

  lemma ProtoIsLostInDynamoDb(v: Value)
    ensures ThroughDynamoDb(Single("__proto__", v)) == Obj([])
  {
    assert [Field("__proto__", v)][1..] == [] && CopiedFields(ToDynamoDb, []) == [] && CopiedFields(FromDynamoDb, []) == [];
    assert Copied(ToDynamoDb, Single("__proto__", v)) == Obj([]);
  }

  /** From Firestore: what is undefined is lost with its property, as is a property named `__proto__`; null, a time
      that is none, and something undefined in an array that goes on are refused. */
  lemma LostInFirestore(name: string, v: Value)
    requires name != "__proto__"
    ensures v.Undefined? ==> ThroughFirestore(Single(name, v)) == Some(Obj([]))
    ensures v.Null? || v == Date(Invalid) ==> ThroughFirestore(Single(name, v)) == None
    ensures !HasInvalidTime(v) ==> ThroughFirestore(Single("__proto__", v)) == Some(Obj([]))
    ensures v.Undefined? ==> ThroughFirestore(Single(name, Arr([v, Bool(true)]))) == None
    ensures v.Undefined? ==> ThroughFirestore(Single(name, Arr([Bool(true), v]))) == Some(Single(name, Arr([Bool(true)])))
  {
    if v.Null? || v == Date(Invalid) {
      RefusedAlone(name, v);
    }
    if !HasInvalidTime(v) {
      ProtoIsLost(v);
    }
    if v.Undefined? {
      UndefinedIsLost(name);
      UndefinedInArray(name);
    }
  }

  lemma RefusedAlone(name: string, v: Value)
    requires name != "__proto__" && (v.Null? || v == Date(Invalid))
    ensures ThroughFirestore(Single(name, v)) == None
  {
    SingleCopied(ToFirestore, name, v);
    if v.Null? {
      assert HasUndefined(Single(name, Undefined).fields[0].value);
    } else {
      assert HasInvalidTime(Single(name, v).fields[0].value);
    }
  }

  lemma EmptyStays()
    ensures Copied(FromFirestore, Obj([])) == Obj([]) && !HasUndefined(Obj([])) && CopiedFields(ToFirestore, []) == []
  {
    assert CopiedFields(FromFirestore, []) == [];
  }

  lemma ProtoIsLost(v: Value)
    requires !HasInvalidTime(v)
    ensures ThroughFirestore(Single("__proto__", v)) == Some(Obj([]))
  {
    EmptyStays();
    assert [Field("__proto__", v)][1..] == [];
    assert Copied(ToFirestore, Single("__proto__", v)) == Obj([]) && !HasInvalidTime(Single("__proto__", v));
  }

  lemma UndefinedIsLost(name: string)
    requires name != "__proto__"
    ensures ThroughFirestore(Single(name, Undefined)) == Some(Obj([]))
  {
    SingleCopied(ToFirestore, name, Undefined);
    EmptyStays();
    assert !HasInvalidTime(Single(name, Undefined));
  }

  lemma UndefinedInArray(name: string)
    requires name != "__proto__"
    ensures ThroughFirestore(Single(name, Arr([Undefined, Bool(true)]))) == None
    ensures ThroughFirestore(Single(name, Arr([Bool(true), Undefined]))) == Some(Single(name, Arr([Bool(true)])))
  {
    var first, last, kept := Arr([Undefined, Bool(true)]), Arr([Bool(true), Undefined]), Arr([Bool(true)]);
    PairCopied(ToFirestore, Undefined, Bool(true));
    PairCopied(ToFirestore, Bool(true), Undefined);
    SingleCopied(ToFirestore, name, first);
    SingleCopied(ToFirestore, name, last);
    SingleCopied(FromFirestore, name, kept);
    assert Single(name, first).fields[0].value == first && first.items[0].Undefined? && HasUndefined(first);
    assert [Bool(true)][1..] == [] && CopiedItems(FromFirestore, [Bool(true)]) == [Bool(true)] && Copied(FromFirestore, kept) == kept;
    assert !HasUndefined(kept) && !HasUndefined(Single(name, kept));
    assert !HasInvalidTime(last) && !HasInvalidTime(Single(name, last)) && Copied(ToFirestore, last) == kept;
  }

  lemma PairCopied(pass: Pass, x: Value, y: Value)
    ensures CopiedItems(pass, [x, y])
         == if pass.Skips(y) then (if pass.Skips(x) then [] else [Copied(pass, x)]) else [Copied(pass, x), Copied(pass, y)]
  {
    assert [x, y][1..] == [y] && [y][1..] == [];
    assert CopiedItems(pass, [y]) == if pass.Skips(y) then [] else [Copied(pass, y)];
  }
}
