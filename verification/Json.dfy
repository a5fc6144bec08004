// JSON values, the references in them, and how a reference is resolved.
module Json {
  import opened Wrappers
  import opened Text
  import Decimal

  datatype Value =
    | Null
    | Bool(flag: bool)
    | Number(amount: real)
    | Str(text: string)
    | Arr(items: seq<Value>)
    | Obj(fields: seq<Field>)

  datatype Field = Field(key: string, value: Value)

  // ---------------------------------------------------------------- members

  function Find(fields: seq<Field>, key: string): Option<Value> {
    if fields == [] then None
    else if fields[0].key == key then Some(fields[0].value)
    else Find(fields[1..], key)
  }

  /** node?.[p] */
  function Get(v: Value, p: string): Option<Value> {
    match v
    case Obj(fields) => Find(fields, p)
    case Arr(items) =>
      if p != "" && Decimal.AllDigits(p) && Decimal.Print(Decimal.Value(p)) == p && Decimal.Value(p) < |items|
      then Some(items[Decimal.Value(p)])
      else None
    case _ => None
  }

  function Walk(v: Option<Value>, parts: seq<string>): Option<Value>
    decreases |parts|
  {
    if v.None? || parts == [] then v else Walk(Get(v.value, parts[0]), parts[1..])
  }

  function RemoveFirst(s: string, t: string): string {
    if |s| < |t| then s
    else if s[..|t|] == t then s[|t|..]
    else if s == "" then s
    else [s[0]] + RemoveFirst(s[1..], t)
  }

  function Parts(ref: string): seq<string> {
    SplitOn(RemoveFirst(ref, "#/"), '/')
  }

  function Resolve(root: Value, ref: string): Option<Value> {
    Walk(Some(root), Parts(ref))
  }

  // ---------------------------------------------------------------- references

  function Refs(v: Value): set<string>
    decreases v
  {
    match v
    case Arr(items) => RefsOfItems(items)
    case Obj(fields) => RefsOfFields(fields)
    case _ => {}
  }

  function RefsOfItems(items: seq<Value>): set<string>
    decreases items
  {
    if items == [] then {} else Refs(items[0]) + RefsOfItems(items[1..])
  }

  function RefsOfFields(fields: seq<Field>): set<string>
    decreases fields
  {
    if fields == [] then {} else RefsOfField(fields[0]) + RefsOfFields(fields[1..])
  }

  function RefsOfField(f: Field): set<string>
    decreases f
  {
    if f.key == "$ref" && f.value.Str? then {f.value.text} else Refs(f.value)
  }

  lemma {:induction false} FieldRefs(fields: seq<Field>, r: string)
    ensures r in RefsOfFields(fields) <==> exists f :: f in fields && r in RefsOfField(f)
  {
    if fields != [] {
      FieldRefs(fields[1..], r);
      if r in RefsOfFields(fields) {
        if r in RefsOfField(fields[0]) {
          assert fields[0] in fields;
        } else {
          var f :| f in fields[1..] && r in RefsOfField(f);
          assert f in fields;
        }
      }
    }
  }

  lemma {:induction false} ItemRefs(items: seq<Value>, i: nat)
    requires i < |items|
    ensures Refs(items[i]) <= RefsOfItems(items)
  {
    if i > 0 {
      ItemRefs(items[1..], i - 1);
    }
  }

  lemma {:induction false} FindIn(fields: seq<Field>, key: string)
    requires Find(fields, key).Some?
    ensures Field(key, Find(fields, key).value) in fields
  {
    if fields[0].key != key {
      FindIn(fields[1..], key);
    }
  }

  /** The references of a member are among those of the whole. */
  lemma MemberRefs(v: Value, p: string)
    requires Get(v, p).Some?
    ensures Refs(Get(v, p).value) <= Refs(v)
  {
    match v
    case Obj(fields) =>
      FindIn(fields, p);
      var f := Field(p, Find(fields, p).value);
      forall r | r in Refs(f.value) ensures r in RefsOfFields(fields) {
        assert r in RefsOfField(f);
        FieldRefs(fields, r);
      }
    case Arr(items) => ItemRefs(items, Decimal.Value(p));
    case _ =>
  }

  lemma {:induction false} WalkRefs(v: Option<Value>, parts: seq<string>)
    requires Walk(v, parts).Some?
    ensures v.Some? && Refs(Walk(v, parts).value) <= Refs(v.value)
    decreases |parts|
  {
    if v.Some? && parts != [] {
      WalkRefs(Get(v.value, parts[0]), parts[1..]);
      MemberRefs(v.value, parts[0]);
    }
  }

  // ---------------------------------------------------------------- where references are

  /** The value at the end of a path of positions, of items or of fields. */
  function Inside(v: Value, path: seq<nat>): Option<Value>
    decreases |path|
  {
    if path == [] then Some(v)
    else
      match v
      case Arr(items) => if path[0] < |items| then Inside(items[path[0]], path[1..]) else None
      case Obj(fields) => if path[0] < |fields| then Inside(fields[path[0]].value, path[1..]) else None
      case _ => None
  }

  /** At the end of this path there is an object with a field $ref of text `r`. */
  predicate RefersAt(v: Value, path: seq<nat>, r: string) {
    var at := Inside(v, path);
    at.Some? && at.value.Obj? && Field("$ref", Str(r)) in at.value.fields
  }

  lemma RefersDeeper(v: Value, k: nat, path: seq<nat>, r: string)
    ensures v.Arr? && k < |v.items| ==> (RefersAt(v, [k] + path, r) <==> RefersAt(v.items[k], path, r))
    ensures v.Obj? && k < |v.fields| ==> (RefersAt(v, [k] + path, r) <==> RefersAt(v.fields[k].value, path, r))
  {
    assert ([k] + path)[0] == k && ([k] + path)[1..] == path;
  }

  lemma {:induction false} ItemWithRef(items: seq<Value>, r: string) returns (k: nat)
    requires r in RefsOfItems(items)
    ensures k < |items| && r in Refs(items[k])
  {
    if r in Refs(items[0]) {
      k := 0;
    } else {
      k := ItemWithRef(items[1..], r);
      k := k + 1;
    }
  }

  /** A reference of the value is the text of a field $ref somewhere in it. */
  lemma {:induction false} RefIsThere(v: Value, r: string) returns (path: seq<nat>)
    requires r in Refs(v)
    ensures RefersAt(v, path, r)
    decreases v
  {
    match v
    case Arr(items) =>
      var k := ItemWithRef(items, r);
      var rest := RefIsThere(items[k], r);
      path := [k] + rest;
      RefersDeeper(v, k, rest, r);
    case Obj(fields) =>
      FieldRefs(fields, r);
      var f :| f in fields && r in RefsOfField(f);
      var k :| 0 <= k < |fields| && fields[k] == f;
      if f.key == "$ref" && f.value.Str? {
        path := [];
      } else {
        var rest := RefIsThere(f.value, r);
        path := [k] + rest;
        RefersDeeper(v, k, rest, r);
      }
  }

  lemma {:induction false} RefIsFound(v: Value, path: seq<nat>, r: string)
    requires RefersAt(v, path, r)
    ensures r in Refs(v)
    decreases |path|
  {
    if path == [] {
      assert r in RefsOfField(Field("$ref", Str(r)));
      FieldRefs(v.fields, r);
    } else {
      assert path == [path[0]] + path[1..];
      RefersDeeper(v, path[0], path[1..], r);
      match v
      case Arr(items) =>
        RefIsFound(items[path[0]], path[1..], r);
        ItemRefs(items, path[0]);
      case Obj(fields) =>
        var f := fields[path[0]];
        RefIsFound(f.value, path[1..], r);
        assert r in RefsOfField(f) && f in fields;
        FieldRefs(fields, r);
      case _ =>
    }
  }

  /** The references of a value are exactly the texts of the fields $ref in it, at whatever depth. */
  lemma RefsIff(v: Value, r: string)
    ensures r in Refs(v) <==> exists path :: RefersAt(v, path, r)
  {
    if r in Refs(v) {
      var path := RefIsThere(v, r);
    }
    forall path | RefersAt(v, path, r) ensures r in Refs(v) {
      RefIsFound(v, path, r);
    }
  }
}
