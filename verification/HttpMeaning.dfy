/**
 * The meaning the HTTP contract gate is judged against: which request bodies a
 * schema accepts and what a response body carries, under the keywords of JSON
 * Schema Validation 2020-12 the gate reads, section 6.1.1 (type), 6.1.2 (enum)
 * and 6.5.3 (required). References are followed here without any bound.
 */
module HttpMeaning {
  import opened Wrappers
  import opened Documents
  import opened HttpGate
  import opened HttpVerdict
  import Ordering

  // What the type keyword asks for: nothing, or one of the types it names, be it
  // a name or a list of names.
  function TypesOf(schema: Object): Option<set<string>> {
    if "type" !in schema then None
    else if schema["type"].Text? then Some({schema["type"].value})
    else if schema["type"].List? then Some(TextsOf(schema["type"].items))
    else None
  }

  // A JSON value: an opaque tag and its printed form.
  datatype Value = Value(kind: string, shown: string)

  // Which values a type name covers.
  type Typing = (Value, string) -> bool

  type Body = map<string, Value>

  // The reading in which no value has two types.
  const TAGGED: Typing := (v: Value, name: string) => v.kind == name

  // The schema at the end of a chain of references, however long.
  ghost function Meaning(d: Document, schema: Option<Object>): Option<Object> {
    if exists k: nat, end :: EndsAt(d, schema, k, end)
    then var k: nat, end :| EndsAt(d, schema, k, end); Some(end)
    else None
  }

  lemma ResolvedIsMeaning(d: Document, schema: Option<Object>)
    requires Resolved(d, schema).Some?
    ensures Meaning(d, schema) == Resolved(d, schema)
  {
    var end := Resolved(d, schema).value;
    ResolveIsChaseWithinSevenHops(d, schema, end);
    var k: nat :| k <= 7 && EndsAt(d, schema, k, end);
    forall j: nat, other | EndsAt(d, schema, j, other) ensures other == end {
      if j < k { AfterNothing(d, schema, j, k); }
      if k < j { AfterNothing(d, schema, k, j); }
    }
  }

  // No chain of references is longer than the gate follows.
  ghost predicate WithinReach(d: Document) {
    forall schema :: Meaning(d, schema).Some? ==> Resolved(d, schema).Some?
  }

  // With at most seven component schemas none can be.
  lemma SmallDocumentsAreWithinReach(d: Document)
    requires Components(d).Some? ==> |Components(d).value| <= 7
    ensures WithinReach(d)
  {
    forall schema | Meaning(d, schema).Some? ensures Resolved(d, schema).Some? {
      var k: nat, end :| EndsAt(d, schema, k, end);
      EndedChainIsSound(d, schema, k, end);
      ResolveFailsOnlyOnBadChains(d, schema);
    }
  }

  ghost predicate OneOfTypes(has: Typing, types: Option<set<string>>, v: Value) {
    types.Some? ==> exists name :: name in types.value && has(v, name)
  }

  ghost predicate Admits(has: Typing, schema: Object, v: Value) {
    && OneOfTypes(has, TypesOf(schema), v)
    && (EnumOf(schema).Some? ==> v.shown in EnumOf(schema).value)
  }

  ghost predicate Conforms(has: Typing, d: Document, schema: Object, body: Body) {
    && RequiredNames(schema) <= body.Keys
    && forall name | name in Declared(schema) && name in body ::
         var property := Meaning(d, Some(Declared(schema)[name]));
         property.Some? && Admits(has, property.value, body[name])
  }

  ghost predicate Accepts(has: Typing, d: Document, node: Object, body: Body) {
    Meaning(d, BodySchema(node)).Some? && Conforms(has, d, Meaning(d, BodySchema(node)).value, body)
  }

  ghost predicate ReferencesResolve(d: Document, schema: Object) {
    forall name | name in Declared(schema) :: Resolved(d, Some(Declared(schema)[name])).Some?
  }

  // Conforming to the properties the gate reads.
  ghost predicate Fits(has: Typing, properties: map<string, Object>, required: set<string>, body: Body) {
    && required <= body.Keys
    && forall name | name in properties && name in body :: Admits(has, properties[name], body[name])
  }

  // With every reference in reach of the gate, conforming to a schema is
  // fitting what the gate reads of it; one way it needs no condition.
  lemma ConformsIsFits(has: Typing, d: Document, schema: Object, body: Body)
    ensures Conforms(has, d, schema, body) ==> Fits(has, Properties(d, schema), RequiredNames(schema), body)
    ensures ReferencesResolve(d, schema) ==>
      (Conforms(has, d, schema, body) <==> Fits(has, Properties(d, schema), RequiredNames(schema), body))
    ensures ReferencesResolve(d, schema) ==> Properties(d, schema).Keys == Declared(schema).Keys
  {
    forall name | name in Declared(schema) && Resolved(d, Some(Declared(schema)[name])).Some?
      ensures Meaning(d, Some(Declared(schema)[name])) == Resolved(d, Some(Declared(schema)[name]))
    {
      ResolvedIsMeaning(d, Some(Declared(schema)[name]));
    }
  }

  lemma AcceptsIsFits(has: Typing, d: Document, node: Object, schema: Object, body: Body)
    requires ResolvedBody(d, node) == Some(schema)
    ensures Accepts(has, d, node, body) ==> Fits(has, Properties(d, schema), RequiredNames(schema), body)
    ensures ReferencesResolve(d, schema) ==>
      (Accepts(has, d, node, body) <==> Fits(has, Properties(d, schema), RequiredNames(schema), body))
    ensures ReferencesResolve(d, schema) ==> Properties(d, schema).Keys == Declared(schema).Keys
  {
    ResolvedIsMeaning(d, BodySchema(node));
    ConformsIsFits(has, d, schema, body);
  }

  // ------------------------------------------------------- comparing types

  // Every type the first asks for satisfies the second.
  predicate TypesWithin(before: Option<set<string>>, after: Option<set<string>>) {
    after.Some? ==> before.Some? && before.value <= after.value
  }

  // The gate compares two types where both are single names.
  predicate TypesCompared(before: Object, after: Object) {
    TypeName(before) != "" && TypeName(after) != ""
  }

  // A type that meets the first demand and not the second.
  lemma TypeBetween(some: Option<set<string>>, other: Option<set<string>>) returns (name: string)
    requires !TypesWithin(some, other)
    ensures some.Some? ==> name in some.value
    ensures other.Some? && name !in other.value
  {
    if some.None? {
      name := Ordering.FreshName(other.value);
    } else {
      name :| name in some.value && name !in other.value;
    }
  }

  // Two operations the gate compares: same path, same verb, silent overall.
  ghost predicate ComparedSilently(
      previous: Document, current: Document, path: string, verb: string, before: Object, after: Object)
  {
    && AllBreaks(previous, current) == multiset{} && path in Paths(previous) && verb in METHODS
    && MapAt(Paths(previous)[path], verb) == Some(before)
    && MapIn(if path in Paths(current) then Some(Paths(current)[path]) else None, verb) == Some(after)
  }

  lemma SilentOperationHolds(
      previous: Document, current: Document, path: string, verb: string, before: Object, after: Object)
    requires ComparedSilently(previous, current, path, verb, before, after)
    ensures OperationHolds(previous, current, before, after)
  {
    SilentExactlyWhenItHolds(previous, current);
    assert VerbHolds(previous, current, Paths(previous)[path], Paths(current)[path], verb);
  }

  // --------------------------------------------------------- making a body

  // Some value fits, and so does every listed value.
  ghost predicate Inhabited(has: Typing, schema: Object) {
    && (exists v :: Admits(has, schema, v))
    && (EnumOf(schema).Some? ==>
        forall s | s in EnumOf(schema).value :: exists kind :: Admits(has, schema, Value(kind, s)))
  }

  ghost predicate AllInhabited(has: Typing, properties: map<string, Object>) {
    forall name | name in properties :: Inhabited(has, properties[name])
  }

  ghost function Fitting(has: Typing, schema: Object): Value
    requires Inhabited(has, schema)
    ensures Admits(has, schema, Fitting(has, schema))
  {
    var v :| Admits(has, schema, v); v
  }

  // A body with every declared and every required property, each acceptable.
  ghost function Sample(has: Typing, properties: map<string, Object>, required: set<string>): (r: Body)
    requires AllInhabited(has, properties)
    ensures r.Keys == properties.Keys + required
    ensures forall name | name in properties :: Admits(has, properties[name], r[name])
  {
    map name | name in properties.Keys + required ::
      if name in properties then Fitting(has, properties[name]) else Value("", "")
  }

  lemma LeavingOut(has: Typing, properties: map<string, Object>, required: set<string>, name: string)
    returns (body: Body)
    requires AllInhabited(has, properties) && name !in required
    ensures Fits(has, properties, required, body) && name !in body
  {
    body := Sample(has, properties, required) - {name};
  }

  lemma PuttingIn(has: Typing, properties: map<string, Object>, required: set<string>, name: string, v: Value)
    returns (body: Body)
    requires AllInhabited(has, properties)
    requires name in properties && Admits(has, properties[name], v)
    ensures Fits(has, properties, required, body) && name in body && body[name] == v
    ensures body.Keys == properties.Keys + required
  {
    body := Sample(has, properties, required)[name := v];
  }
}
