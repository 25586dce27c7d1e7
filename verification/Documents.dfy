/**
 Resources as the tables see them, and the copies that the tables make of them: to and from the form
 that DynamoDB stores, with times as strings, and the form that Firestore stores, with timestamps.
*/
module Documents {
  import opened Wrappers
  import opened Sequences
  import opened DateStrings

  datatype Field = Field(name: string, value: Value)

  /** A value of the source language: a tree of objects, arrays and scalars. `Timestamp` is the type of
      the Firestore client. */
  datatype Value =
    | Str(text: string) | Num(number: real) | Bool(truth: bool) | Null | Undefined
    | Date(time: Time) | Timestamp(time: Time)
    | Arr(items: seq<Value>) | Obj(fields: seq<Field>)

  predicate HasName(fields: seq<Field>, name: string) {
    exists i :: 0 <= i < |fields| && fields[i].name == name
  }

  /** A resource in memory: property names are distinct, at every level, there is no timestamp, and
      a time is one with fields in range or no time at all. */
  ghost predicate WellFormed(v: Value)
    decreases v
  {
    match v
    case Arr(items) => forall i | 0 <= i < |items| :: WellFormed(items[i])
    case Obj(fields) =>
      && (forall i | 0 <= i < |fields| :: WellFormed(fields[i].value))
      && DistinctNames(fields)
    case Date(time) => !time.ReadFrom? && (time.At? ==> time.instant.InRange())
    case Timestamp(_) => false
    case _ => true
  }

  ghost predicate DistinctNames(fields: seq<Field>) {
    forall i, j | 0 <= i < j < |fields| :: fields[i].name != fields[j].name
  }

  // ---------------------------------------------------------------- copies

  /** The four copies. */
  datatype Pass = ToDynamoDb | FromDynamoDb | ToFirestore | FromFirestore {
    /** What becomes of a value that is neither an array nor a plain object. Copying null, which has the
        type of an object, gives undefined; a time without fields of its own is copied as an object. */
    function Leaf(v: Value): Value
      requires !v.Arr? && !v.Obj?
    {
      match v
      case Null => Undefined
      case Date(time) =>
        if ToFirestore? then Timestamp(time)
        else if ToDynamoDb? && time.At? && time.instant.InRange() then Str(ToIsoString(time.instant))
        else Obj([])
      case Timestamp(time) => if FromFirestore? then Date(time) else Obj([])
      case Str(text) => if FromDynamoDb? && IsDateString(text) then Date(NewDate(text)) else v
      case _ => v
    }

    /** Values that are left out: nothing is assigned. */
    predicate Skips(v: Value) {
      ToFirestore? && v.Undefined?
    }
  }

  function Copied(pass: Pass, v: Value): Value
    decreases v, 1
  {
    match v
    case Arr(items) => Arr(CopiedItems(pass, items))
    case Obj(fields) => Obj(CopiedFields(pass, fields))
    case _ => pass.Leaf(v)
  }

  /** An element that is left out leaves a hole, which reads as undefined, unless nothing follows. */
  function CopiedItems(pass: Pass, items: seq<Value>): (copied: seq<Value>)
    ensures |copied| <= |items|
    decreases items, 0
  {
    if items == [] then []
    else
      var rest := CopiedItems(pass, items[1..]);
      if pass.Skips(items[0]) && rest == [] then [] else [Copied(pass, items[0])] + rest
  }

  /** Assigning to `__proto__` makes no property. */
  function CopiedFields(pass: Pass, fields: seq<Field>): (copied: seq<Field>)
    ensures |copied| <= |fields|
    decreases fields, 0
  {
    if fields == [] then []
    else
      var rest := CopiedFields(pass, fields[1..]);
      if pass.Skips(fields[0].value) || fields[0].name == "__proto__" then rest
      else [Field(fields[0].name, Copied(pass, fields[0].value))] + rest
  }

  // ---------------------------------------------------------------- the loops

  /** `copy[name] = value` on an object. */
  function Assign(fields: seq<Field>, name: string, value: Value): (r: seq<Field>)
    ensures name == "__proto__" ==> r == fields
    ensures name != "__proto__" && !HasName(fields, name) ==> r == fields + [Field(name, value)]
  {
    if name == "__proto__" then fields
    else if fields == [] then [Field(name, value)]
    else if fields[0].name == name then [Field(name, value)] + fields[1..]
    else
      assert forall i | 0 <= i < |fields[1..]| :: fields[1..][i] == fields[i + 1];
      assert fields == [fields[0]] + fields[1..];
      [fields[0]] + Assign(fields[1..], name, value)
  }

  /** `copy[i] = value` on an array; the elements in between become holes. */
  function AssignItem(items: seq<Value>, i: nat, value: Value): seq<Value>
    requires i >= |items|
  {
    items + seq(i - |items|, _ => Undefined) + [value]
  }

  /** Some time in the value is none; the Firestore client throws when it makes a timestamp of it. */
  predicate HasInvalidTime(v: Value)
    decreases v
  {
    match v
    case Date(time) => time.Invalid?
    case Arr(items) => exists i :: 0 <= i < |items| && HasInvalidTime(items[i])
    case Obj(fields) => exists i :: 0 <= i < |fields| && HasInvalidTime(fields[i].value)
    case _ => false
  }

  predicate Throws(pass: Pass, v: Value) {
    pass.ToFirestore? && HasInvalidTime(v)
  }

  /** Property names are distinct, at every level: so it is with every object. */
  ghost predicate WithDistinctNames(v: Value)
    decreases v
  {
    match v
    case Arr(items) => forall i | 0 <= i < |items| :: WithDistinctNames(items[i])
    case Obj(fields) => DistinctNames(fields) && forall i | 0 <= i < |fields| :: WithDistinctNames(fields[i].value)
    case _ => true
  }

  /** The copy of a value as `serialize` and `deserialize` make it; None where they throw. */
  method CopyValue(pass: Pass, v: Value) returns (r: Option<Value>)
    requires WithDistinctNames(v)
    ensures r == if Throws(pass, v) then None else Some(Copied(pass, v))
    decreases v, 1
  {
    if v.Arr? {
      var copy := CopyItems(pass, v.items);
      r := if copy.Some? then Some(Arr(copy.value)) else None;
    } else if v.Obj? {
      var copy := CopyFields(pass, v.fields);
      r := if copy.Some? then Some(Obj(copy.value)) else None;
    } else if v.Date? && v.time.Invalid? && pass == ToFirestore {
      r := None;
    } else {
      r := Some(pass.Leaf(v));
    }
  }

  method CopyItems(pass: Pass, items: seq<Value>) returns (r: Option<seq<Value>>)
    requires forall i | 0 <= i < |items| :: WithDistinctNames(items[i])
    ensures r == if exists i :: 0 <= i < |items| && Throws(pass, items[i]) then None else Some(CopiedItems(pass, items))
    decreases items, 0
  {
    var copy: seq<Value> := [];
    for i := 0 to |items|
      invariant ItemsDone(pass, items, i, copy) && |copy| <= i
    {
      var value := CopyValue(pass, items[i]);
      if value.None? {
        return None;
      }
      OneItemMore(pass, items, i, copy);
      if !pass.Skips(items[i]) {
        copy := AssignItem(copy, i, value.value);
      }
    }
    assert items[..|items|] == items;
    r := Some(copy);
  }

  method CopyFields(pass: Pass, fields: seq<Field>) returns (r: Option<seq<Field>>)
    requires DistinctNames(fields) && forall i | 0 <= i < |fields| :: WithDistinctNames(fields[i].value)
    ensures r == if exists i :: 0 <= i < |fields| && Throws(pass, fields[i].value) then None else Some(CopiedFields(pass, fields))
    decreases fields, 0
  {
    var copy: seq<Field> := [];
    for i := 0 to |fields|
      invariant FieldsDone(pass, fields, i, copy)
    {
      var value := CopyValue(pass, fields[i].value);
      if value.None? {
        return None;
      }
      OneFieldMore(pass, fields, i, copy);
      if !pass.Skips(fields[i].value) {
        copy := Assign(copy, fields[i].name, value.value);
      }
    }
    assert fields[..|fields|] == fields;
    r := Some(copy);
  }

  /** The first i elements are copied, and none of them throws. */
  ghost predicate ItemsDone(pass: Pass, items: seq<Value>, i: nat, copy: seq<Value>) {
    i <= |items| && copy == CopiedItems(pass, items[..i]) && forall j | 0 <= j < i :: !Throws(pass, items[j])
  }

  lemma OneItemMore(pass: Pass, items: seq<Value>, i: nat, copy: seq<Value>)
    requires i < |items| && ItemsDone(pass, items, i, copy) && |copy| <= i && !Throws(pass, items[i])
    ensures var next := if pass.Skips(items[i]) then copy else AssignItem(copy, i, Copied(pass, items[i]));
            ItemsDone(pass, items, i + 1, next) && |next| <= i + 1
  {
    CopiedItemsNext(pass, items[..i], items[i], items[..i + 1]);
  }

  ghost predicate FieldsDone(pass: Pass, fields: seq<Field>, i: nat, copy: seq<Field>) {
    i <= |fields| && copy == CopiedFields(pass, fields[..i]) && forall j | 0 <= j < i :: !Throws(pass, fields[j].value)
  }

  lemma OneFieldMore(pass: Pass, fields: seq<Field>, i: nat, copy: seq<Field>)
    requires i < |fields| && DistinctNames(fields) && FieldsDone(pass, fields, i, copy) && !Throws(pass, fields[i].value)
    ensures var f := fields[i];
            FieldsDone(pass, fields, i + 1, if pass.Skips(f.value) then copy else Assign(copy, f.name, Copied(pass, f.value)))
  {
    assert forall j | 0 <= j < i :: fields[..i][j].name != fields[i].name;
    CopiedFieldsNext(pass, fields[..i], fields[i], fields[..i + 1]);
  }

  /** Elements that all leave holes, then one more element. */
  lemma HoleInFront(y: Value, n: nat)
    ensures [Undefined] + AssignItem([], n, y) == AssignItem([], n + 1, y)
  {
  }

  lemma AssignBehind(first: Value, copy: seq<Value>, n: nat, y: Value)
    requires n >= |copy|
    ensures [first] + AssignItem(copy, n, y) == AssignItem([first] + copy, n + 1, y)
  {
  }

  /** One more element in front of a copy. */
  function InFront(pass: Pass, first: Value, copy: seq<Value>): seq<Value> {
    if pass.Skips(first) && copy == [] then [] else [Copied(pass, first)] + copy
  }

  lemma CopiedItemsCons(pass: Pass, first: Value, rest: seq<Value>)
    ensures CopiedItems(pass, [first] + rest) == InFront(pass, first, CopiedItems(pass, rest))
  {
    assert ([first] + rest)[1..] == rest;
  }

  lemma InFrontOfAssigned(pass: Pass, first: Value, copy: seq<Value>, n: nat, y: Value)
    requires n >= |copy|
    ensures InFront(pass, first, AssignItem(copy, n, y)) == AssignItem(InFront(pass, first, copy), n + 1, y)
  {
    if pass.Skips(first) && copy == [] {
      HoleInFront(y, n);
    } else {
      AssignBehind(Copied(pass, first), copy, n, y);
    }
  }

  lemma {:induction false} CopiedItemsPush(pass: Pass, items: seq<Value>, x: Value)
    ensures CopiedItems(pass, items + [x])
         == if pass.Skips(x) then CopiedItems(pass, items) else AssignItem(CopiedItems(pass, items), |items|, Copied(pass, x))
  {
    if items == [] {
      assert [] + [x] == [x] && [x] + [] == [x];
      CopiedItemsCons(pass, x, []);
    } else {
      var first, rest := items[0], items[1..];
      CopiedItemsPush(pass, rest, x);
      assert items + [x] == [first] + (rest + [x]) && items == [first] + rest;
      CopiedItemsCons(pass, first, rest + [x]);
      CopiedItemsCons(pass, first, rest);
      if !pass.Skips(x) {
        InFrontOfAssigned(pass, first, CopiedItems(pass, rest), |rest|, Copied(pass, x));
      }
    }
  }

  lemma CopiedItemsNext(pass: Pass, before: seq<Value>, x: Value, after: seq<Value>)
    requires after == before + [x]
    ensures CopiedItems(pass, after)
         == if pass.Skips(x) then CopiedItems(pass, before) else AssignItem(CopiedItems(pass, before), |before|, Copied(pass, x))
  {
    CopiedItemsPush(pass, before, x);
  }

  /** What one property adds to a copy. */
  function CopiedField(pass: Pass, f: Field): seq<Field> {
    if pass.Skips(f.value) || f.name == "__proto__" then [] else [Field(f.name, Copied(pass, f.value))]
  }

  lemma CopiedFieldsCons(pass: Pass, first: Field, rest: seq<Field>)
    ensures CopiedFields(pass, [first] + rest) == CopiedField(pass, first) + CopiedFields(pass, rest)
  {
    assert ([first] + rest)[1..] == rest;
    assert [] + CopiedFields(pass, rest) == CopiedFields(pass, rest);
  }

  lemma {:induction false} CopiedFieldsPush(pass: Pass, fields: seq<Field>, f: Field)
    ensures CopiedFields(pass, fields + [f]) == CopiedFields(pass, fields) + CopiedField(pass, f)
  {
    if fields == [] {
      assert [] + [f] == [f] + [];
      CopiedFieldsCons(pass, f, []);
      assert CopiedField(pass, f) + [] == [] + CopiedField(pass, f);
    } else {
      var first, rest := fields[0], fields[1..];
      CopiedFieldsPush(pass, rest, f);
      assert fields + [f] == [first] + (rest + [f]) && fields == [first] + rest;
      CopiedFieldsCons(pass, first, rest + [f]);
      CopiedFieldsCons(pass, first, rest);
      Reassociate(CopiedField(pass, first), CopiedFields(pass, rest), CopiedField(pass, f));
    }
  }

  lemma {:induction false} CopiedNames(pass: Pass, fields: seq<Field>, name: string)
    requires forall i | 0 <= i < |fields| :: fields[i].name != name
    ensures !HasName(CopiedFields(pass, fields), name)
  {
    if fields != [] {
      CopiedNames(pass, fields[1..], name);
    }
  }

  lemma CopiedFieldsNext(pass: Pass, before: seq<Field>, f: Field, after: seq<Field>)
    requires after == before + [f] && forall j | 0 <= j < |before| :: before[j].name != f.name
    ensures CopiedFields(pass, after)
         == if pass.Skips(f.value) then CopiedFields(pass, before)
            else Assign(CopiedFields(pass, before), f.name, Copied(pass, f.value))
  {
    CopiedFieldsPush(pass, before, f);
    CopiedNames(pass, before, f.name);
    assert CopiedFields(pass, before) + [] == CopiedFields(pass, before);
  }
}
