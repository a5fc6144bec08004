// The external API description: the references reachable from its paths, and the components
// that are kept for them.
module OpenApiRefs {
  import opened Wrappers
  import opened Text
  import opened Json

  // ---------------------------------------------------------------- closure

  function RefsOf(v: Option<Value>): set<string> {
    if v.Some? then Refs(v.value) else {}
  }

  /** With a reference also those in what it resolves to. */
  predicate Closed(spec: Value, refs: set<string>) {
    forall r :: r in refs ==> RefsOf(Resolve(spec, r)) <= refs
  }

  /** The least closed set with the references of the paths. */
  ghost predicate LeastClosure(spec: Value, start: set<string>, refs: set<string>) {
    && start <= refs && Closed(spec, refs)
    && forall other :: start <= other && Closed(spec, other) ==> refs <= other
  }

  lemma {:induction false} ResolvedRefs(spec: Value, r: string)
    ensures RefsOf(Resolve(spec, r)) <= Refs(spec)
  {
    if Resolve(spec, r).Some? {
      WalkRefs(Some(spec), Parts(r));
    }
  }

  // ---------------------------------------------------------------- pruning

  function Replace(fields: seq<Field>, key: string, v: Option<Value>): seq<Field> {
    if fields == [] then []
    else
      (if fields[0].key != key then [fields[0]] else if v.Some? then [Field(key, v.value)] else [])
      + Replace(fields[1..], key, v)
  }

  function Prefix(section: string): string {
    "#/components/" + section + "/"
  }

  function Named(names: seq<Field>, section: string, refs: set<string>): seq<Field> {
    if names == [] then []
    else
      (if Prefix(section) + names[0].key in refs then [names[0]] else [])
      + Named(names[1..], section, refs)
  }

  /** Only the referenced items of a section stay; a section left empty goes. */
  function PruneComponents(cs: seq<Field>, section: string, refs: set<string>): seq<Field> {
    match Find(cs, section)
    case Some(Obj(names)) =>
      var kept := Named(names, section, refs);
      Replace(cs, section, if kept == [] then None else Some(Obj(kept)))
    case _ => cs
  }

  function PruneSection(spec: Value, section: string, refs: set<string>): Value {
    match spec
    case Obj(fields) =>
      (match Find(fields, "components")
       case Some(Obj(cs)) => Obj(Replace(fields, "components", Some(Obj(PruneComponents(cs, section, refs)))))
       case _ => spec)
    case _ => spec
  }

  function DropEmptyComponents(spec: Value): Value {
    match spec
    case Obj(fields) =>
      if Find(fields, "components") == Some(Obj([])) then Obj(Replace(fields, "components", None)) else spec
    case _ => spec
  }

  const SECTIONS: seq<string> := ["schemas", "responses", "securitySchemes", "parameters"]

  function PruneAll(spec: Value, sections: seq<string>, refs: set<string>): Value
    decreases |sections|
  {
    if sections == [] then spec else PruneAll(PruneSection(spec, sections[0], refs), sections[1..], refs)
  }

  function Prune(spec: Value, refs: set<string>): Value {
    DropEmptyComponents(PruneAll(spec, SECTIONS, refs))
  }

  class Builder {
    var spec: Value
    var refs: set<string>

    constructor (spec: Value)
      ensures this.spec == spec && refs == {}
    {
      this.spec, refs := spec, {};
    }

    method CollectRefs(v: Value)
      modifies this`refs
      ensures refs == old(refs) + Refs(v)
      decreases v, 1
    {
      match v
      case Arr(items) =>
        var i := 0;
        while i < |items|
          invariant i <= |items|
          invariant refs == old(refs) + RefsOfItems(items[..i])
        {
          CollectRefs(items[i]);
          RefsOfMoreItems(items, i);
          i := i + 1;
        }
        assert items[..|items|] == items;
      case Obj(fields) =>
        var i := 0;
        while i < |fields|
          invariant i <= |fields|
          invariant refs == old(refs) + RefsOfFields(fields[..i])
        {
          var f := fields[i];
          if f.key == "$ref" && f.value.Str? {
            refs := refs + {f.value.text};
          } else {
            CollectRefs(f.value);
          }
          RefsOfMoreFields(fields, i);
          i := i + 1;
        }
        assert fields[..|fields|] == fields;
      case _ =>
    }

    /** Resolving again and again until no new reference turns up ends, and with the least closed
        set that holds the references of the paths. */
    method CloseRefs(paths: Value)
      requires refs == {} && Get(spec, "paths") == Some(paths)
      modifies this`refs
      ensures LeastClosure(spec, Refs(paths), refs)
    {
      MemberRefs(spec, "paths");
      CollectRefs(paths);
      var prevSize := 0;
      ghost var prev: set<string> := {};
      while |refs| > prevSize
        invariant Refs(paths) <= refs <= Refs(spec)
        invariant prev <= refs && |prev| == prevSize
        invariant forall r :: r in prev ==> RefsOf(Resolve(spec, r)) <= refs
        invariant forall other :: Refs(paths) <= other && Closed(spec, other) ==> refs <= other
        decreases |Refs(spec)| - prevSize
      {
        SubsetSize(refs, Refs(spec));
        prevSize := |refs|;
        prev := refs;
        ResolveEach(paths);
        SubsetSize(refs, Refs(spec));
      }
      SubsetSize(prev, refs);
    }

    method ResolveEach(ghost paths: Value)
      requires refs <= Refs(spec)
      requires forall other :: Refs(paths) <= other && Closed(spec, other) ==> refs <= other
      modifies this`refs
      ensures old(refs) <= refs <= Refs(spec)
      ensures forall r :: r in old(refs) ==> RefsOf(Resolve(spec, r)) <= refs
      ensures forall other :: Refs(paths) <= other && Closed(spec, other) ==> refs <= other
    {
      var todo := refs;
      while todo != {}
        invariant todo <= old(refs) <= refs <= Refs(spec)
        invariant forall r :: r in old(refs) && r !in todo ==> RefsOf(Resolve(spec, r)) <= refs
        invariant forall other :: Refs(paths) <= other && Closed(spec, other) ==> refs <= other
        decreases |todo|
      {
        var ref :| ref in todo;
        todo := todo - {ref};
        var resolved := Resolve(spec, ref);
        ResolvedRefs(spec, ref);
        if resolved.Some? {
          CollectRefs(resolved.value);
        }
      }
    }

    /** Pruning in place, one section after the other. */
    method PruneComponentsInPlace()
      modifies this`spec
      ensures spec == Prune(old(spec), refs)
    {
      var i := 0;
      while i < |SECTIONS|
        invariant i <= |SECTIONS|
        invariant PruneAll(old(spec), SECTIONS, refs) == PruneAll(spec, SECTIONS[i..], refs)
      {
        assert SECTIONS[i..][0] == SECTIONS[i] && SECTIONS[i..][1..] == SECTIONS[i + 1..];
        spec := PruneSection(spec, SECTIONS[i], refs);
        i := i + 1;
      }
      spec := DropEmptyComponents(spec);
    }

    /** Closing and pruning together: the result holds only references of the least closure of its
        paths; of those that resolved before, exactly the ones that point to or into an item named
        in full by no reference do not resolve as before, and full names all do. */
    method KeepReferenced(paths: Value)
      requires refs == {} && Get(spec, "paths") == Some(paths)
      requires OnlySections(spec) && WellFormed(spec) && RefsInPaths(spec)
      modifies this
      ensures LeastClosure(old(spec), Refs(paths), refs) && spec == Prune(old(spec), refs) && Refs(spec) <= refs
      ensures forall r :: r in Refs(spec) && Specific(Parts(r)) && Resolve(old(spec), r).Some? ==>
        (Resolve(spec, r) == Resolve(old(spec), r) <==> !PrunedAway(Parts(r), SECTIONS, refs))
      ensures forall section, name :: section in SECTIONS && NoSlash(name) && Prefix(section) + name in Refs(spec) ==>
        Resolve(spec, Prefix(section) + name) == Resolve(old(spec), Prefix(section) + name)
    {
      ghost var whole := spec;
      CloseRefs(paths);
      PathsIn(whole, paths, refs);
      PruneComponentsInPlace();
      RefsKept(whole, refs);
      forall r | r in Refs(spec) && Specific(Parts(r)) && Resolve(whole, r).Some?
        ensures Resolve(spec, r) == Resolve(whole, r) <==> !PrunedAway(Parts(r), SECTIONS, refs)
      {
        NothingDangles(whole, refs, r);
      }
      forall section, name | section in SECTIONS && NoSlash(name) && Prefix(section) + name in Refs(spec)
        ensures Resolve(spec, Prefix(section) + name) == Resolve(whole, Prefix(section) + name)
      {
        FullNamesResolve(whole, refs, section, name);
      }
    }
  }

  /** Outside the components only the paths hold references. */
  predicate RefsInPaths(spec: Value) {
    spec.Obj? && forall f :: f in spec.fields && f.key != "components" && f.key != "paths" ==> RefsOfField(f) == {}
  }

  lemma PathsIn(spec: Value, paths: Value, refs: set<string>)
    requires OnlySections(spec) && RefsInPaths(spec) && Get(spec, "paths") == Some(paths) && Refs(paths) <= refs
    ensures OutsideIn(spec, refs)
  {
    forall f | f in spec.fields && f.key == "paths" ensures RefsOfField(f) <= refs {
      FindMember(spec.fields, f);
    }
  }

  lemma SubsetSize(a: set<string>, b: set<string>)
    requires a <= b
    ensures |a| <= |b| && (|a| == |b| ==> a == b)
  {
    assert b == a + (b - a);
  }

  lemma {:induction false} RefsOfMoreItems(items: seq<Value>, i: nat)
    requires i < |items|
    ensures RefsOfItems(items[..i + 1]) == RefsOfItems(items[..i]) + Refs(items[i])
  {
    if i > 0 {
      RefsOfMoreItems(items[1..], i - 1);
      assert items[..i + 1][1..] == items[1..][..i] && items[..i][1..] == items[1..][..i - 1];
    } else {
      assert items[..1][1..] == [];
    }
  }

  lemma {:induction false} RefsOfMoreFields(fields: seq<Field>, i: nat)
    requires i < |fields|
    ensures RefsOfFields(fields[..i + 1]) == RefsOfFields(fields[..i]) + RefsOfField(fields[i])
  {
    if i > 0 {
      RefsOfMoreFields(fields[1..], i - 1);
      assert fields[..i + 1][1..] == fields[1..][..i] && fields[..i][1..] == fields[1..][..i - 1];
    } else {
      assert fields[..1][1..] == [];
    }
  }

  // ---------------------------------------------------------------- what pruning keeps

  lemma {:induction false} FindReplace(fields: seq<Field>, key: string, v: Option<Value>, k: string)
    ensures Find(Replace(fields, key, v), k) ==
      if k != key then Find(fields, k) else if Find(fields, key).Some? then v else None
  {
    if fields != [] {
      var rest := Replace(fields[1..], key, v);
      FindReplace(fields[1..], key, v, k);
      var first := if fields[0].key != key then [fields[0]] else if v.Some? then [Field(key, v.value)] else [];
      assert first != [] ==> (first + rest)[0] == first[0] && (first + rest)[1..] == rest;
      assert first == [] ==> first + rest == rest;
    }
  }

  lemma {:induction false} FindNamed(names: seq<Field>, section: string, refs: set<string>, n: string)
    ensures Find(Named(names, section, refs), n) == if Prefix(section) + n in refs then Find(names, n) else None
  {
    if names != [] {
      var rest := Named(names[1..], section, refs);
      FindNamed(names[1..], section, refs, n);
      assert ([names[0]] + rest)[0] == names[0] && ([names[0]] + rest)[1..] == rest;
      assert [] + rest == rest;
    }
  }

  /** Components and their sections are objects, where present. */
  predicate WellFormed(spec: Value) {
    && spec.Obj?
    && var components := Find(spec.fields, "components");
       components.Some? ==> components.value.Obj? && SectionsAreObjects(components.value.fields)
  }

  predicate SectionsAreObjects(cs: seq<Field>) {
    forall s :: s in SECTIONS && Find(cs, s).Some? ==> Find(cs, s).value.Obj?
  }

  /** An item of one of the sections that is not referenced by its full name. */
  predicate PrunedAway(parts: seq<string>, sections: seq<string>, refs: set<string>) {
    |parts| >= 3 && parts[0] == "components" && parts[1] in sections && Prefix(parts[1]) + parts[2] !in refs
  }

  /** Paths to an item or into one, or outside the components. */
  predicate Specific(parts: seq<string>) {
    |parts| >= 3 || (parts != [] && parts[0] != "components")
  }

  lemma PruneComponentsFind(cs: seq<Field>, section: string, refs: set<string>, parts: seq<string>)
    requires SectionsAreObjects(cs) && section in SECTIONS && |parts| >= 2
    ensures
      var pruned := PruneComponents(cs, section, refs);
      && SectionsAreObjects(pruned)
      && Walk(Find(pruned, parts[0]), parts[1..]) ==
           if parts[0] == section && Prefix(section) + parts[1] !in refs then None else Walk(Find(cs, parts[0]), parts[1..])
  {
    var found := Find(cs, section);
    if found.Some? {
      var kept := Named(found.value.fields, section, refs);
      var v := if kept == [] then None else Some(Obj(kept));
      forall k ensures Find(Replace(cs, section, v), k) == if k == section then v else Find(cs, k) {
        FindReplace(cs, section, v, k);
      }
      FindNamed(found.value.fields, section, refs, parts[1]);
    }
  }

  lemma PruneSectionWalk(spec: Value, section: string, refs: set<string>, parts: seq<string>)
    requires WellFormed(spec) && section in SECTIONS && Specific(parts)
    ensures WellFormed(PruneSection(spec, section, refs))
    ensures Walk(Some(PruneSection(spec, section, refs)), parts) ==
      if PrunedAway(parts, [section], refs) then None else Walk(Some(spec), parts)
  {
    var found := Find(spec.fields, "components");
    if found.Some? {
      var cs := found.value.fields;
      var v := Some(Obj(PruneComponents(cs, section, refs)));
      FindReplace(spec.fields, "components", v, "components");
      FindReplace(spec.fields, "components", v, parts[0]);
      if |parts| >= 3 && parts[0] == "components" {
        PruneComponentsFind(cs, section, refs, parts[1..]);
      } else {
        PruneComponentsFind(cs, section, refs, ["", ""]);
      }
    }
  }

  lemma {:induction false} PruneAllWalk(spec: Value, sections: seq<string>, refs: set<string>, parts: seq<string>)
    requires WellFormed(spec) && (forall s :: s in sections ==> s in SECTIONS) && Specific(parts)
    ensures WellFormed(PruneAll(spec, sections, refs))
    ensures Walk(Some(PruneAll(spec, sections, refs)), parts) ==
      if PrunedAway(parts, sections, refs) then None else Walk(Some(spec), parts)
    decreases |sections|
  {
    if sections != [] {
      PruneSectionWalk(spec, sections[0], refs, parts);
      PruneAllWalk(PruneSection(spec, sections[0], refs), sections[1..], refs, parts);
    }
  }

  /** After pruning every path resolves to what it did before, except exactly the items, and what
      is in them, that no reference names in full. */
  lemma PruneWalk(spec: Value, refs: set<string>, parts: seq<string>)
    requires WellFormed(spec) && Specific(parts)
    ensures Walk(Some(Prune(spec, refs)), parts) ==
      if PrunedAway(parts, SECTIONS, refs) then None else Walk(Some(spec), parts)
  {
    PruneAllWalk(spec, SECTIONS, refs, parts);
    var pruned := PruneAll(spec, SECTIONS, refs);
    if Find(pruned.fields, "components") == Some(Obj([])) {
      FindReplace(pruned.fields, "components", None, "components");
      FindReplace(pruned.fields, "components", None, parts[0]);
      if parts[0] == "components" {
        assert Walk(Some(pruned), parts) == Walk(Some(Obj([])), parts[1..]);
        assert Walk(Some(Obj([])), parts[1..]) == None;
      } else {
        assert Walk(Some(Prune(spec, refs)), parts) == Walk(Find(pruned.fields, parts[0]), parts[1..]);
      }
    }
  }

  // ---------------------------------------------------------------- no dangling reference

  predicate NoSlash(s: string) {
    '/' !in s
  }

  lemma {:induction false} SplitPrefix(a: string, b: string)
    requires NoSlash(a)
    ensures SplitOn(a + "/" + b, '/') == [a] + SplitOn(b, '/')
  {
    if a == "" {
      assert a + "/" + b == "/" + b && ("/" + b)[1..] == b;
    } else {
      SplitPrefix(a[1..], b);
      assert (a + "/" + b)[1..] == a[1..] + "/" + b && (a + "/" + b)[0] == a[0];
      assert [a[0]] + a[1..] == a;
    }
  }

  lemma {:induction false} SplitWhole(a: string)
    requires NoSlash(a)
    ensures SplitOn(a, '/') == [a]
  {
    if a != "" {
      SplitWhole(a[1..]);
      assert [a[0]] + a[1..] == a;
    }
  }

  /** The full name of an item resolves to that item. */
  lemma FullName(section: string, name: string)
    requires NoSlash(section) && NoSlash(name)
    ensures Parts(Prefix(section) + name) == ["components", section, name]
  {
    var ref := Prefix(section) + name;
    assert ref[..2] == "#/" && ref[2..] == "components" + "/" + (section + "/" + name);
    SplitPrefix("components", section + "/" + name);
    SplitPrefix(section, name);
    SplitWhole(name);
  }

  predicate Unique(fields: seq<Field>) {
    forall i, j :: 0 <= i < j < |fields| ==> fields[i].key != fields[j].key
  }

  lemma {:induction false} FindMember(fields: seq<Field>, f: Field)
    requires Unique(fields) && f in fields
    ensures Find(fields, f.key) == Some(f.value)
  {
    if fields[0] != f {
      assert forall i, j :: 0 <= i < j < |fields[1..]| ==> fields[1..][i] == fields[i + 1] && fields[1..][j] == fields[j + 1];
      FindMember(fields[1..], f);
      var k :| 1 <= k < |fields| && fields[k] == f;
    }
  }

  /** `h` is an item of section `s`. */
  predicate ItemOf(spec: Value, s: string, h: Field) {
    && var components := Get(spec, "components");
    components.Some?
    && var section := Get(components.value, s);
    section.Some? && section.value.Obj? && h in section.value.fields
  }

  /** Only the four sections, with distinct items that are no bare strings and whose names have no
      slash; keys are distinct, as in every object. */
  predicate OnlySections(spec: Value) {
    && spec.Obj? && Unique(spec.fields)
    && forall f :: f in spec.fields && f.key == "components" ==>
         f.value.Obj? && Unique(f.value.fields) && forall g :: g in f.value.fields ==> PlainSection(g)
  }

  predicate PlainSection(g: Field) {
    && g.key in SECTIONS && g.value.Obj? && Unique(g.value.fields)
    && forall h :: h in g.value.fields ==> NoSlash(h.key) && !h.value.Str?
  }

  /** Outside the components every reference is in `refs`. */
  predicate OutsideIn(spec: Value, refs: set<string>) {
    spec.Obj? && forall f :: f in spec.fields && f.key != "components" ==> RefsOfField(f) <= refs
  }

  lemma {:induction false} ReplaceMembers(fields: seq<Field>, key: string, v: Option<Value>)
    ensures forall f :: f in Replace(fields, key, v) ==>
      (f in fields && f.key != key) || (v.Some? && f == Field(key, v.value))
  {
    if fields != [] {
      ReplaceMembers(fields[1..], key, v);
    }
  }

  lemma {:induction false} NamedMembers(names: seq<Field>, section: string, refs: set<string>)
    ensures forall h :: h in Named(names, section, refs) ==> h in names && Prefix(section) + h.key in refs
  {
    if names != [] {
      NamedMembers(names[1..], section, refs);
    }
  }

  lemma {:induction false} FoundIfMember(fields: seq<Field>, f: Field)
    requires f in fields
    ensures Find(fields, f.key).Some?
  {
    if fields[0] != f {
      FoundIfMember(fields[1..], f);
    }
  }

  /** A section with original items only, all of them referenced once it is no longer pending. */
  predicate SectionWithin(g: Field, orig: Value, refs: set<string>, pending: seq<string>) {
    && g.key in SECTIONS && g.value.Obj?
    && forall h :: h in g.value.fields ==>
         ItemOf(orig, g.key, h) && (g.key !in pending ==> Prefix(g.key) + h.key in refs)
  }

  predicate FieldWithin(f: Field, orig: Value, refs: set<string>, pending: seq<string>) {
    if f.key != "components" then orig.Obj? && f in orig.fields
    else f.value.Obj? && forall g :: g in f.value.fields ==> SectionWithin(g, orig, refs, pending)
  }

  predicate Within(cur: Value, orig: Value, refs: set<string>, pending: seq<string>) {
    cur.Obj? && forall f :: f in cur.fields ==> FieldWithin(f, orig, refs, pending)
  }

  lemma WithinAtFirst(spec: Value, refs: set<string>)
    requires OnlySections(spec)
    ensures Within(spec, spec, refs, SECTIONS)
  {
    forall f | f in spec.fields ensures FieldWithin(f, spec, refs, SECTIONS) {
      if f.key == "components" {
        FindMember(spec.fields, f);
        forall g | g in f.value.fields ensures SectionWithin(g, spec, refs, SECTIONS) {
          FindMember(f.value.fields, g);
        }
      }
    }
  }

  lemma PrunedComponents(cs: seq<Field>, orig: Value, refs: set<string>, section: string, rest: seq<string>)
    requires forall g :: g in cs ==> SectionWithin(g, orig, refs, [section] + rest)
    ensures forall g :: g in PruneComponents(cs, section, refs) ==> SectionWithin(g, orig, refs, rest)
  {
    var found := Find(cs, section);
    forall g | g in PruneComponents(cs, section, refs) ensures SectionWithin(g, orig, refs, rest) {
      if found.Some? {
        FindIn(cs, section);
        assert SectionWithin(Field(section, found.value), orig, refs, [section] + rest);
        var kept := Named(found.value.fields, section, refs);
        NamedMembers(found.value.fields, section, refs);
        ReplaceMembers(cs, section, if kept == [] then None else Some(Obj(kept)));
        if g in cs && g.key != section {
          assert SectionWithin(g, orig, refs, [section] + rest);
        }
      } else {
        FoundIfMember(cs, g);
        assert SectionWithin(g, orig, refs, [section] + rest) && g.key != section;
      }
    }
  }

  lemma PrunedSection(cur: Value, orig: Value, refs: set<string>, section: string, rest: seq<string>)
    requires Within(cur, orig, refs, [section] + rest)
    ensures Within(PruneSection(cur, section, refs), orig, refs, rest)
  {
    var pruned := PruneSection(cur, section, refs);
    var found := Find(cur.fields, "components");
    if found.Some? {
      FindIn(cur.fields, "components");
      assert FieldWithin(Field("components", found.value), orig, refs, [section] + rest);
      PrunedComponents(found.value.fields, orig, refs, section, rest);
      ReplaceMembers(cur.fields, "components", Some(Obj(PruneComponents(found.value.fields, section, refs))));
    }
    forall f | f in pruned.fields ensures FieldWithin(f, orig, refs, rest) {
      if found.None? {
        FoundIfMember(cur.fields, f);
      }
      assert f.key != "components" ==> FieldWithin(f, orig, refs, [section] + rest);
    }
  }

  lemma {:induction false} PrunedAll(cur: Value, orig: Value, refs: set<string>, sections: seq<string>)
    requires Within(cur, orig, refs, sections)
    ensures Within(PruneAll(cur, sections, refs), orig, refs, [])
    decreases |sections|
  {
    if sections != [] {
      assert sections == [sections[0]] + sections[1..];
      PrunedSection(cur, orig, refs, sections[0], sections[1..]);
      PrunedAll(PruneSection(cur, sections[0], refs), orig, refs, sections[1..]);
    }
  }

  lemma DroppedWithin(cur: Value, orig: Value, refs: set<string>)
    requires Within(cur, orig, refs, [])
    ensures Within(DropEmptyComponents(cur), orig, refs, [])
  {
    if Find(cur.fields, "components") == Some(Obj([])) {
      ReplaceMembers(cur.fields, "components", None);
    }
  }

  lemma WalkThree(v: Value, a: string, b: string, c: string)
    requires Get(v, a).Some? && Get(Get(v, a).value, b).Some?
    ensures Walk(Some(v), [a, b, c]) == Get(Get(Get(v, a).value, b).value, c)
  {
    assert [a, b, c][1..] == [b, c] && [b, c][1..] == [c] && [c][1..] == [];
    var va := Get(v, a);
    var vb := Get(va.value, b);
    assert Walk(Some(v), [a, b, c]) == Walk(va, [b, c]);
    assert Walk(va, [b, c]) == Walk(vb, [c]);
    assert Walk(vb, [c]) == Get(vb.value, c);
  }

  /** An item's full name resolves to it, and items are no bare strings. */
  lemma ItemResolves(spec: Value, section: string, h: Field)
    requires OnlySections(spec) && section in SECTIONS && ItemOf(spec, section, h)
    ensures NoSlash(h.key) && !h.value.Str?
    ensures Walk(Some(spec), ["components", section, h.key]) == Some(h.value)
  {
    var c := Find(spec.fields, "components").value;
    FindIn(spec.fields, "components");
    FindIn(c.fields, section);
    var g := Field(section, Find(c.fields, section).value);
    assert PlainSection(g);
    FindMember(g.value.fields, h);
    WalkThree(spec, "components", section, h.key);
  }

  /** The references in a kept item are all in the closure. */
  lemma ItemRefsIn(spec: Value, refs: set<string>, section: string, h: Field)
    requires OnlySections(spec) && Closed(spec, refs) && section in SECTIONS && ItemOf(spec, section, h)
    requires Prefix(section) + h.key in refs
    ensures RefsOfField(h) <= refs
  {
    ItemResolves(spec, section, h);
    FullName(section, h.key);
    assert RefsOf(Resolve(spec, Prefix(section) + h.key)) == Refs(h.value);
  }

  lemma SectionRefsIn(spec: Value, refs: set<string>, g: Field)
    requires OnlySections(spec) && Closed(spec, refs) && SectionWithin(g, spec, refs, [])
    ensures RefsOfField(g) <= refs
  {
    forall r | r in RefsOfFields(g.value.fields) ensures r in refs {
      FieldRefs(g.value.fields, r);
      var h :| h in g.value.fields && r in RefsOfField(h);
      ItemRefsIn(spec, refs, g.key, h);
    }
  }

  lemma FieldRefsIn(spec: Value, refs: set<string>, f: Field)
    requires OnlySections(spec) && OutsideIn(spec, refs) && Closed(spec, refs) && FieldWithin(f, spec, refs, [])
    ensures RefsOfField(f) <= refs
  {
    if f.key == "components" {
      forall r | r in RefsOfFields(f.value.fields) ensures r in refs {
        FieldRefs(f.value.fields, r);
        var g :| g in f.value.fields && r in RefsOfField(g);
        SectionRefsIn(spec, refs, g);
      }
    }
  }

  /** The pruned description contains no reference outside the closure. */
  lemma RefsKept(spec: Value, refs: set<string>)
    requires OnlySections(spec) && OutsideIn(spec, refs) && Closed(spec, refs)
    ensures Refs(Prune(spec, refs)) <= refs
  {
    WithinAtFirst(spec, refs);
    PrunedAll(spec, spec, refs, SECTIONS);
    DroppedWithin(PruneAll(spec, SECTIONS, refs), spec, refs);
    var pruned := Prune(spec, refs);
    forall r | r in Refs(pruned) ensures r in refs {
      FieldRefs(pruned.fields, r);
      var f :| f in pruned.fields && r in RefsOfField(f);
      FieldRefsIn(spec, refs, f);
    }
  }

  /** What reference `r` resolved to before pruning it resolves to afterwards, exactly unless it
      points to an item, or into one, whose full name is not itself among the references. */
  lemma NothingDangles(spec: Value, refs: set<string>, r: string)
    requires WellFormed(spec) && Specific(Parts(r)) && Resolve(spec, r).Some?
    ensures Resolve(Prune(spec, refs), r) == Resolve(spec, r) <==> !PrunedAway(Parts(r), SECTIONS, refs)
    ensures PrunedAway(Parts(r), SECTIONS, refs) ==> Resolve(Prune(spec, refs), r).None?
  {
    PruneWalk(spec, refs, Parts(r));
  }

  /** In particular every reference in the pruned description to an item by its full name. */
  lemma FullNamesResolve(spec: Value, refs: set<string>, section: string, name: string)
    requires OnlySections(spec) && WellFormed(spec) && OutsideIn(spec, refs) && Closed(spec, refs)
    requires section in SECTIONS && NoSlash(name)
    requires Prefix(section) + name in Refs(Prune(spec, refs))
    ensures Resolve(Prune(spec, refs), Prefix(section) + name) == Resolve(spec, Prefix(section) + name)
  {
    RefsKept(spec, refs);
    FullName(section, name);
    PruneWalk(spec, refs, Parts(Prefix(section) + name));
  }

  /** An item is kept exactly if its full name is among the references: being named in a `security`
      requirement, which is no reference, does not keep a security scheme. */
  lemma KeptIff(spec: Value, refs: set<string>, section: string, name: string)
    requires WellFormed(spec) && section in SECTIONS && Walk(Some(spec), ["components", section, name]).Some?
    ensures Walk(Some(Prune(spec, refs)), ["components", section, name]).Some? <==> Prefix(section) + name in refs
  {
    PruneWalk(spec, refs, ["components", section, name]);
  }

  const OPERATION := Obj([Field("security", Arr([Obj([Field("ApiKey", Arr([]))])]))])
  const GUARDED_PATHS := Obj([Field("/sheets", Obj([Field("get", OPERATION)]))])
  const SCHEME := Obj([Field("type", Str("apiKey"))])
  const SCHEMES := Obj([Field("securitySchemes", Obj([Field("ApiKey", SCHEME)]))])
  const GUARDED := Obj([Field("paths", GUARDED_PATHS), Field("components", SCHEMES)])

  lemma RefsOfOne(key: string, v: Value)
    ensures key != "$ref" ==> Refs(Obj([Field(key, v)])) == Refs(v)
    ensures Refs(Arr([v])) == Refs(v)
  {
    var f := Field(key, v);
    assert [f][1..] == [] && RefsOfFields([f]) == RefsOfField(f) + RefsOfFields([]);
    assert [v][1..] == [] && RefsOfItems([v]) == Refs(v) + RefsOfItems([]);
  }

  lemma NoReferences()
    ensures Refs(GUARDED_PATHS) == {}
  {
    var scheme := Obj([Field("ApiKey", Arr([]))]);
    RefsOfOne("ApiKey", Arr([]));
    RefsOfOne("security", scheme);
    RefsOfOne("security", Arr([scheme]));
    RefsOfOne("get", OPERATION);
    RefsOfOne("/sheets", Obj([Field("get", OPERATION)]));
  }

  lemma SchemeFound()
    ensures Walk(Some(GUARDED), ["components", "securitySchemes", "ApiKey"]) == Some(SCHEME)
  {
    var components := Field("components", SCHEMES);
    assert GUARDED.fields[1..] == [components];
    assert Find(GUARDED.fields, "components") == Find([components], "components");
    WalkThree(GUARDED, "components", "securitySchemes", "ApiKey");
  }

  /** The one operation of this description requires the scheme ApiKey; the description has it, and the
      pruned one, in which the operation still requires it, does not. */
  lemma RequiredSchemeGoes()
    ensures Refs(GUARDED_PATHS) == {} && LeastClosure(GUARDED, {}, {})
    ensures Resolve(GUARDED, Prefix("securitySchemes") + "ApiKey") == Some(SCHEME)
    ensures Walk(Some(Prune(GUARDED, {})), ["paths"]) == Some(GUARDED_PATHS)
    ensures Resolve(Prune(GUARDED, {}), Prefix("securitySchemes") + "ApiKey") == None
  {
    hide Refs, Prune, Prefix, Parts;
    NoReferences();
    SchemeFound();
    FullName("securitySchemes", "ApiKey");
    assert "securitySchemes" == SECTIONS[2];
    PruneWalk(GUARDED, {}, ["paths"]);
    KeptIff(GUARDED, {}, "securitySchemes", "ApiKey");
  }

  /** A reference into an item does not keep the item, so it dangles in the result unless another
      reference names the item in full. */
  lemma DeepRefDangles(spec: Value, refs: set<string>, section: string, name: string, inner: string)
    requires WellFormed(spec) && section in SECTIONS && NoSlash(name) && Prefix(section) + name !in refs
    ensures Resolve(Prune(spec, refs), Prefix(section) + name + "/" + inner).None?
  {
    var ref := Prefix(section) + name + "/" + inner;
    DeepName(section, name, inner);
    PruneWalk(spec, refs, Parts(ref));
  }

  lemma DeepName(section: string, name: string, inner: string)
    requires NoSlash(section) && NoSlash(name)
    ensures Parts(Prefix(section) + name + "/" + inner) == ["components", section, name] + SplitOn(inner, '/')
  {
    hide SplitOn;
    var ref, rest := Prefix(section) + name + "/" + inner, section + "/" + (name + "/" + inner);
    assert ref[..2] == "#/" && ref[2..] == "components" + "/" + rest;
    SplitPrefix("components", rest);
    SplitPrefix(section, name + "/" + inner);
    SplitPrefix(name, inner);
  }
}
