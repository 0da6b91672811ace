/** The order in which generated schemas are written out (frontend/scripts/generate-api.ts). */
module Emission {
  datatype Json = Arr(items: seq<Json>) | Obj(fields: seq<Field>) | Str(text: string) | Other

  datatype Field = Field(name: string, value: Json)

  const REF_PREFIX := "#/components/schemas/"

  /** The text without the first occurrence of the prefix, wherever that is. */
  function RefName(text: string): string {
    if |text| < |REF_PREFIX| then text
    else if text[..|REF_PREFIX|] == REF_PREFIX then text[|REF_PREFIX|..]
    else [text[0]] + RefName(text[1..])
  }

  predicate IsRef(f: Field) { f.name == "$ref" && f.value.Str? }

  /** Every schema a node refers to, at any depth. */
  ghost function Mentioned(node: Json): set<string> {
    match node
    case Arr(items) => set i, r | 0 <= i < |items| && r in Mentioned(items[i]) :: r
    case Obj(fields) =>
      (set i | 0 <= i < |fields| && IsRef(fields[i]) :: RefName(fields[i].value.text))
      + (set i, r | 0 <= i < |fields| && r in Mentioned(fields[i].value) :: r)
    case _ => {}
  }

  /** Somewhere in the node is a "$ref" to the schema of a name. */
  ghost predicate PointsAt(node: Json, name: string) {
    match node
    case Arr(items) => exists i :: 0 <= i < |items| && PointsAt(items[i], name)
    case Obj(fields) =>
      || Field("$ref", Str("#/components/schemas/" + name)) in fields
      || exists i :: 0 <= i < |fields| && PointsAt(fields[i].value, name)
    case _ => false
  }

  /** Every "$ref" in the node is to a schema. */
  ghost predicate OnlyPoints(node: Json) {
    match node
    case Arr(items) => forall i | 0 <= i < |items| :: OnlyPoints(items[i])
    case Obj(fields) =>
      forall i | 0 <= i < |fields| ::
        && OnlyPoints(fields[i].value)
        && (fields[i].name == "$ref" && fields[i].value.Str? ==> "#/components/schemas/" <= fields[i].value.text)
    case _ => true
  }

  lemma RefNameIsTheRest(name: string)
    ensures RefName("#/components/schemas/" + name) == name
  {
    var text := "#/components/schemas/" + name;
    assert text[..|REF_PREFIX|] == REF_PREFIX && text[|REF_PREFIX|..] == name;
  }

  /** What a node points at it mentions, and nothing else if its references are all to schemas. */
  lemma {:induction false} MentionedIsPointedAt(node: Json, name: string)
    ensures PointsAt(node, name) ==> name in Mentioned(node)
    ensures OnlyPoints(node) && name in Mentioned(node) ==> PointsAt(node, name)
    decreases node
  {
    RefNameIsTheRest(name);
    match node
    case Arr(items) =>
      forall i | 0 <= i < |items|
        ensures PointsAt(items[i], name) ==> name in Mentioned(items[i])
        ensures OnlyPoints(items[i]) && name in Mentioned(items[i]) ==> PointsAt(items[i], name)
      {
        MentionedIsPointedAt(items[i], name);
      }
    case Obj(fields) =>
      forall i | 0 <= i < |fields|
        ensures PointsAt(fields[i].value, name) ==> name in Mentioned(fields[i].value)
        ensures OnlyPoints(fields[i].value) && name in Mentioned(fields[i].value) ==> PointsAt(fields[i].value, name)
        ensures OnlyPoints(node) && IsRef(fields[i]) && RefName(fields[i].value.text) == name ==>
                  fields[i] == Field("$ref", Str("#/components/schemas/" + name))
      {
        MentionedIsPointedAt(fields[i].value, name);
        if OnlyPoints(node) && IsRef(fields[i]) {
          var text := fields[i].value.text;
          RefNameIsTheRest(text[21..]);
          assert text == "#/components/schemas/" + text[21..];
        }
      }
    case _ =>
  }

  type Schemas = map<string, Json>

  /** A schema refers to another; a name that is no schema refers to nothing. */
  ghost predicate Refers(schemas: Schemas, a: string, b: string) {
    a in schemas && b in Mentioned(schemas[a])
  }

  /** The schemas and whatever they mention. */
  ghost function Universe(schemas: Schemas): set<string> {
    schemas.Keys + set a, b | a in schemas && b in Mentioned(schemas[a]) :: b
  }

  ghost predicate IsPath(schemas: Schemas, p: seq<string>) {
    p != [] && forall i | 0 <= i < |p| - 1 :: Refers(schemas, p[i], p[i + 1])
  }

  ghost predicate Acyclic(schemas: Schemas) {
    forall p | IsPath(schemas, p) && |p| > 1 :: p[0] != p[|p| - 1]
  }

  ghost predicate Distinct(names: seq<string>) {
    forall i, j | 0 <= i < j < |names| :: names[i] != names[j]
  }

  /** Nothing is mentioned that is not a schema. */
  ghost predicate Closed(schemas: Schemas) {
    forall a, b | Refers(schemas, a, b) :: b in schemas
  }

  /** Each name comes after everything it refers to. */
  ghost predicate AfterDependencies(schemas: Schemas, order: seq<string>) {
    forall i, b | 0 <= i < |order| && Refers(schemas, order[i], b) :: b in order[..i]
  }

  /** A set that remembers the order of insertion. */
  class InsertionSet {
    var items: seq<string>

    constructor ()
      ensures items == []
    {
      items := [];
    }

    method Add(item: string)
      requires Distinct(items)
      modifies this
      ensures Distinct(items) && forall r :: r in items <==> r in old(items) || r == item
    {
      if item !in items {
        items := items + [item];
      }
    }
  }

  /** Adds everything the node refers to. */
  method CollectRefs(node: Json, refs: InsertionSet)
    requires Distinct(refs.items)
    modifies refs
    ensures Distinct(refs.items)
    ensures forall r :: r in refs.items <==> r in old(refs.items) || r in Mentioned(node)
    decreases node
  {
    match node
    case Arr(items) =>
      for i := 0 to |items|
        invariant Distinct(refs.items)
        invariant forall r :: r in refs.items <==> r in old(refs.items) || exists j | 0 <= j < i :: r in Mentioned(items[j])
      {
        CollectRefs(items[i], refs);
      }
    case Obj(fields) =>
      AddOwnRef(fields, refs);
      for i := 0 to |fields|
        invariant Distinct(refs.items)
        invariant forall r :: r in refs.items <==>
                    || r in old(refs.items)
                    || (exists j | 0 <= j < |fields| :: IsRef(fields[j]) && r == RefName(fields[j].value.text))
                    || (exists j | 0 <= j < i :: r in Mentioned(fields[j].value))
      {
        CollectRefs(fields[i].value, refs);
      }
    case _ =>
  }

  /** Adds the object's own $ref. */
  method AddOwnRef(fields: seq<Field>, refs: InsertionSet)
    requires Distinct(refs.items)
    modifies refs
    ensures Distinct(refs.items)
    ensures forall r :: r in refs.items <==>
              r in old(refs.items) || exists j | 0 <= j < |fields| :: IsRef(fields[j]) && r == RefName(fields[j].value.text)
  {
    for i := 0 to |fields|
      invariant Distinct(refs.items)
      invariant forall r :: r in refs.items <==>
                  r in old(refs.items) || exists j | 0 <= j < i :: IsRef(fields[j]) && r == RefName(fields[j].value.text)
    {
      if IsRef(fields[i]) {
        refs.Add(RefName(fields[i].value.text));
      }
    }
  }

  /** The names marked are those written out and those whose dependencies are being written out. */
  ghost predicate Consistent(schemas: Schemas, emitted: set<string>, order: seq<string>, stack: seq<string>) {
    && Distinct(order)
    && (forall n :: n in emitted <==> n in order || n in stack)
    && (forall n | n in stack :: n !in order)
    && emitted <= Universe(schemas)
    && (forall a, b | a in order && Refers(schemas, a, b) :: b in emitted)
    && (Acyclic(schemas) ==> AfterDependencies(schemas, order))
  }

  lemma StepOn(schemas: Schemas, p: seq<string>, d: string)
    requires IsPath(schemas, p) && Refers(schemas, p[|p| - 1], d)
    ensures IsPath(schemas, p + [d]) && d in Universe(schemas)
  {
  }

  lemma Marking(schemas: Schemas, emitted: set<string>, order: seq<string>, stack: seq<string>, name: string)
    requires Consistent(schemas, emitted, order, stack) && name in Universe(schemas) && name !in emitted
    ensures Consistent(schemas, emitted + {name}, order, stack + [name])
  {
  }

  /** With everything it refers to marked, the name on top of the stack may be written out. */
  lemma WritingOut(schemas: Schemas, emitted: set<string>, order: seq<string>, stack: seq<string>, name: string)
    requires Consistent(schemas, emitted, order, stack + [name]) && name !in stack && IsPath(schemas, stack + [name])
    requires forall b | Refers(schemas, name, b) :: b in emitted
    ensures Consistent(schemas, emitted, order + [name], stack)
  {
    assert name in stack + [name];
    assert forall n :: n in stack + [name] <==> n in stack || n == name;
    if Acyclic(schemas) {
      forall b | Refers(schemas, name, b) ensures b in order {
        NotOnTheStack(schemas, stack, name, b);
      }
      forall i, b | 0 <= i < |order + [name]| && Refers(schemas, (order + [name])[i], b)
        ensures b in (order + [name])[..i]
      {
        assert (order + [name])[..i] == order[..i];
      }
    }
  }

  class Emitter {
    const schemas: Schemas
    var emitted: set<string>
    var emissionOrder: seq<string>

    constructor (schemas: Schemas)
      ensures this.schemas == schemas && emissionOrder == [] && Valid([])
    {
      this.schemas, emitted, emissionOrder := schemas, {}, [];
    }

    ghost predicate Valid(stack: seq<string>)
      reads this
    {
      Consistent(schemas, emitted, emissionOrder, stack)
    }

    /** Writes a name out after what it refers to, unless it is marked; the stack is the chain of references that led here. */
    method EmitAfterDependencies(name: string, ghost stack: seq<string>)
      requires Valid(stack) && name in Universe(schemas) && IsPath(schemas, stack + [name])
      modifies this
      ensures Valid(stack) && name in emitted
      ensures old(emissionOrder) <= emissionOrder && old(emitted) <= emitted
      decreases Universe(schemas) - emitted, 0
    {
      if name in emitted {
        return;
      }
      Marking(schemas, emitted, emissionOrder, stack, name);
      emitted := emitted + {name};
      var dependencies := new InsertionSet();
      if name in schemas {
        CollectRefs(schemas[name], dependencies);
      }
      EmitEach(dependencies.items, name, stack);
      WritingOut(schemas, emitted, emissionOrder, stack, name);
      emissionOrder := emissionOrder + [name];
    }

    /** The dependencies, in the order they were met. */
    method EmitEach(dependencies: seq<string>, name: string, ghost stack: seq<string>)
      requires Valid(stack + [name]) && IsPath(schemas, stack + [name])
      requires forall d :: d in dependencies <==> Refers(schemas, name, d)
      modifies this
      ensures Valid(stack + [name]) && forall d | d in dependencies :: d in emitted
      ensures old(emissionOrder) <= emissionOrder && old(emitted) <= emitted
      decreases Universe(schemas) - emitted, 1
    {
      for i := 0 to |dependencies|
        invariant Valid(stack + [name])
        invariant forall d | d in dependencies[..i] :: d in emitted
        invariant old(emissionOrder) <= emissionOrder && old(emitted) <= emitted
      {
        var d := dependencies[i];
        assert d in dependencies;
        StepOn(schemas, stack + [name], d);
        assert Universe(schemas) - emitted <= Universe(schemas) - old(emitted);
        EmitAfterDependencies(d, stack + [name]);
        assert dependencies[..i + 1] == dependencies[..i] + [d];
      }
      assert dependencies[..|dependencies|] == dependencies;
    }

    /** Every schema, in any order of names; the source sorts them. */
    method EmitAll(names: seq<string>)
      requires Valid([]) && forall n :: n in names <==> n in schemas
      modifies this
      ensures Distinct(emissionOrder) && forall n :: n in emissionOrder <==> n in Universe(schemas)
      ensures Closed(schemas) ==> forall n :: n in emissionOrder <==> n in schemas
      ensures AfterDependencies(schemas, emissionOrder) <==> Acyclic(schemas)
    {
      for i := 0 to |names|
        invariant Valid([])
        invariant forall j | 0 <= j < i :: names[j] in emitted
      {
        assert names[i] in names;
        EmitAfterDependencies(names[i], []);
      }
      EverythingIsOut(schemas, emissionOrder);
    }
  }

  lemma AClosedGraphIsItsUniverse(schemas: Schemas)
    requires Closed(schemas)
    ensures Universe(schemas) == schemas.Keys
  {
    forall a, b | a in schemas && b in Mentioned(schemas[a]) ensures b in schemas {
      assert Refers(schemas, a, b);
    }
  }

  /** An order that holds every schema and whatever its names refer to holds exactly what there is. */
  lemma EverythingIsOut(schemas: Schemas, order: seq<string>)
    requires Distinct(order) && (forall n | n in schemas :: n in order) && (forall n | n in order :: n in Universe(schemas))
    requires forall a, b | a in order && Refers(schemas, a, b) :: b in order
    requires Acyclic(schemas) ==> AfterDependencies(schemas, order)
    ensures forall n :: n in order <==> n in Universe(schemas)
    ensures Closed(schemas) ==> forall n :: n in order <==> n in schemas
    ensures AfterDependencies(schemas, order) <==> Acyclic(schemas)
  {
    forall a, b | a in schemas && b in Mentioned(schemas[a]) ensures b in order {
      assert Refers(schemas, a, b);
    }
    if Closed(schemas) {
      AClosedGraphIsItsUniverse(schemas);
    }
    if AfterDependencies(schemas, order) {
      OnlyAcyclicGraphsCanBeOrdered(schemas, order);
    }
  }

  lemma NotOnTheStack(schemas: Schemas, stack: seq<string>, name: string, b: string)
    requires Acyclic(schemas) && IsPath(schemas, stack + [name]) && Refers(schemas, name, b)
    ensures b !in stack && b != name
  {
    forall i | 0 <= i < |stack + [name]| ensures (stack + [name])[i] != b {
      var p := (stack + [name])[i..] + [b];
      assert IsPath(schemas, p);
    }
    assert (stack + [name])[|stack|] == name;
    forall i | 0 <= i < |stack| ensures stack[i] != b {
      assert (stack + [name])[i] == stack[i];
    }
  }

  /** What a name reaches through any chain of references comes before it. */
  lemma {:induction false} AfterEverythingReached(schemas: Schemas, order: seq<string>, p: seq<string>, i: nat)
    requires AfterDependencies(schemas, order)
    requires IsPath(schemas, p) && |p| > 1 && i < |order| && order[i] == p[0]
    ensures p[|p| - 1] in order[..i]
  {
    assert Refers(schemas, p[0], p[1]);
    var j :| 0 <= j < i && order[..i][j] == p[1];
    if |p| > 2 {
      assert IsPath(schemas, p[1..]) by {
        forall k | 0 <= k < |p[1..]| - 1 ensures Refers(schemas, p[1..][k], p[1..][k + 1]) {
          assert Refers(schemas, p[k + 1], p[k + 2]);
        }
      }
      AfterEverythingReached(schemas, order, p[1..], j);
      assert order[..i][..j] == order[..j];
    }
  }

  lemma OnlyAcyclicGraphsCanBeOrdered(schemas: Schemas, order: seq<string>)
    requires Distinct(order) && AfterDependencies(schemas, order) && forall n | n in schemas :: n in order
    ensures Acyclic(schemas)
  {
    forall p | IsPath(schemas, p) && |p| > 1 ensures p[0] != p[|p| - 1] {
      assert Refers(schemas, p[0], p[1]);
      var i :| 0 <= i < |order| && order[i] == p[0];
      AfterEverythingReached(schemas, order, p, i);
    }
  }
}
