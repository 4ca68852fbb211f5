/**
 * What the HTTP contract gate's readers find in a raw document, key by key: which
 * reference names which component, and which keys hold a body, its properties,
 * what is required, a type and its values.
 */
module HttpReadings {
  import opened Wrappers
  import opened Documents

  // A node holds a table under a key.
  ghost predicate TableAt(node: Object, key: string, table: Object) {
    key in node && node[key].Table? && node[key].fields == table
  }

  ghost predicate TableBeneath(node: Object, key: string, next: string, table: Object) {
    exists between :: TableAt(node, key, between) && TableAt(between, next, table)
  }

  // ------------------------------------------------------------ references

  // The document has a component schema of a name.
  ghost predicate Declares(d: Document, name: string, schema: Object) {
    exists schemas :: TableBeneath(d.raw, "components", "schemas", schemas) && TableAt(schemas, name, schema)
  }

  ghost predicate RefersTo(schema: Object, name: string) {
    "$ref" in schema && schema["$ref"] == Text("#/components/schemas/" + name)
  }

  ghost predicate IsNoReference(schema: Object) {
    !("$ref" in schema && schema["$ref"].Text?)
  }

  // A schema refers, component by component, along some names to one that refers to
  // nothing.
  ghost predicate LeadsAlong(d: Document, schema: Object, names: seq<string>, end: Object)
    decreases |names|
  {
    if names == [] then schema == end && IsNoReference(schema)
    else RefersTo(schema, names[0]) && exists next :: Declares(d, names[0], next) && LeadsAlong(d, next, names[1..], end)
  }

  lemma DeclaredIsOne(d: Document, name: string, schema: Object)
    ensures Declares(d, name, schema) <==> MapIn(Components(d), name) == Some(schema)
  {
    if MapIn(Components(d), name) == Some(schema) {
      var components := MapAt(d.raw, "components").value;
      assert TableAt(d.raw, "components", components) && TableAt(components, "schemas", Components(d).value);
      assert TableBeneath(d.raw, "components", "schemas", Components(d).value) && TableAt(Components(d).value, name, schema);
    }
  }

  // A local reference is to the component it names, and nothing else is followed.
  lemma ReferenceNamesItsComponent(d: Document, ref: string, schema: Object)
    ensures Hop(d, ref) == Some(schema) <==>
      exists name :: ref == "#/components/schemas/" + name && Declares(d, name, schema)
  {
    if Hop(d, ref) == Some(schema) {
      var name := ref[|"#/components/schemas/"|..];
      assert ref == "#/components/schemas/" + name;
      DeclaredIsOne(d, name, schema);
    }
    if name :| ref == "#/components/schemas/" + name && Declares(d, name, schema) {
      DeclaredIsOne(d, name, schema);
      assert ref[|"#/components/schemas/"|..] == name;
    }
  }

  lemma WithinLeadsAlong(d: Document, schema: Object, depth: nat, end: Object)
    ensures ResolveWithin(d, Some(schema), depth) == Some(end)
      <==> exists names :: |names| < depth && LeadsAlong(d, schema, names, end)
  {
    if ResolveWithin(d, Some(schema), depth) == Some(end) { var names := NamesFollowed(d, schema, depth, end); }
    if names :| |names| < depth && LeadsAlong(d, schema, names, end) { NamesResolve(d, schema, names, depth, end); }
  }

  lemma {:induction false} NamesFollowed(d: Document, schema: Object, depth: nat, end: Object) returns (names: seq<string>)
    requires ResolveWithin(d, Some(schema), depth) == Some(end)
    ensures |names| < depth && LeadsAlong(d, schema, names, end)
    decreases depth
  {
    names := [];
    if !IsNoReference(schema) {
      var next := Hop(d, schema["$ref"].value).value;
      names := NamesFollowed(d, next, depth - 1, end);
      names := OneNameMore(d, schema, next, names, end);
    }
  }

  lemma {:induction false} NamesResolve(d: Document, schema: Object, names: seq<string>, depth: nat, end: Object)
    requires |names| < depth && LeadsAlong(d, schema, names, end)
    ensures ResolveWithin(d, Some(schema), depth) == Some(end)
    decreases depth
  {
    if names != [] {
      var next :| Declares(d, names[0], next) && LeadsAlong(d, next, names[1..], end);
      ReferenceNamesItsComponent(d, schema["$ref"].value, next);
      NamesResolve(d, next, names[1..], depth - 1, end);
    }
  }

  lemma OneNameMore(d: Document, schema: Object, next: Object, names: seq<string>, end: Object) returns (longer: seq<string>)
    requires !IsNoReference(schema) && Hop(d, schema["$ref"].value) == Some(next) && LeadsAlong(d, next, names, end)
    ensures |longer| == |names| + 1 && LeadsAlong(d, schema, longer, end)
  {
    ReferenceNamesItsComponent(d, schema["$ref"].value, next);
    var name :| schema["$ref"].value == "#/components/schemas/" + name && Declares(d, name, next);
    longer := [name] + names;
    assert longer[1..] == names && longer[0] == name && RefersTo(schema, name);
  }

  // A schema resolves to another exactly when it refers to it along no more than
  // seven component names.
  lemma ResolvesAlongNames(d: Document, schema: Object, end: Object)
    ensures Resolved(d, Some(schema)) == Some(end) <==> exists names :: |names| <= 7 && LeadsAlong(d, schema, names, end)
  {
    WithinLeadsAlong(d, schema, 8, end);
    if names :| |names| < 8 && LeadsAlong(d, schema, names, end) { assert |names| <= 7; }
    if names :| |names| <= 7 && LeadsAlong(d, schema, names, end) { assert |names| < 8; }
  }

  // In particular a reference to a component that is no reference itself.
  lemma ReferenceResolves(d: Document, name: string, schema: Object)
    requires Declares(d, name, schema) && IsNoReference(schema)
    ensures Resolved(d, Some(map["$ref" := Text("#/components/schemas/" + name)])) == Some(schema)
  {
    var reference: Object := map["$ref" := Text("#/components/schemas/" + name)];
    assert LeadsAlong(d, schema, [], schema);
    assert [name][1..] == [] && RefersTo(reference, name);
    assert LeadsAlong(d, reference, [name], schema);
    ResolvesAlongNames(d, reference, schema);
  }

  // --------------------------------------------------------- operations

  lemma PathsAreRead(d: Document, path: string, item: Object)
    ensures path in Paths(d) && Paths(d)[path] == item <==> TableBeneath(d.raw, "paths", path, item)
  {
    if path in Paths(d) && Paths(d)[path] == item {
      assert TableAt(d.raw, "paths", MapAt(d.raw, "paths").value);
    }
  }

  // The schema of a node that has its content, or of one whose request body has.
  ghost predicate BodyOf(node: Object, schema: Object) {
    exists content, media ::
      && TableAt(content, "application/json", media) && TableAt(media, "schema", schema)
      && (|| TableAt(node, "content", content)
          || ((forall own :: !TableAt(node, "content", own)) && TableBeneath(node, "requestBody", "content", content)))
  }

  lemma BodiesAreRead(node: Object, schema: Object)
    ensures BodySchema(node) == Some(schema) <==> BodyOf(node, schema)
  {
    if BodySchema(node) == Some(schema) {
      var content := Content(node).value;
      var media := MapAt(content, "application/json").value;
      assert TableAt(content, "application/json", media) && TableAt(media, "schema", schema);
      if MapAt(node, "content").Some? {
        assert TableAt(node, "content", content);
      } else {
        assert TableAt(node, "requestBody", MapAt(node, "requestBody").value);
        assert forall own :: !TableAt(node, "content", own);
      }
    }
    if BodyOf(node, schema) {
      var content, media :| TableAt(content, "application/json", media) && TableAt(media, "schema", schema)
        && (|| TableAt(node, "content", content)
            || ((forall own :: !TableAt(node, "content", own)) && TableBeneath(node, "requestBody", "content", content)));
      if MapAt(node, "content").Some? { assert TableAt(node, "content", MapAt(node, "content").value); }
      assert Content(node) == Some(content);
    }
  }

  // ------------------------------------------------------------ one schema

  lemma SchemasAreRead(schema: Object, name: string, property: Object)
    ensures name in Declared(schema) && Declared(schema)[name] == property
      <==> TableBeneath(schema, "properties", name, property)
    ensures name in RequiredNames(schema) <==>
      "required" in schema && schema["required"].List? && Text(name) in schema["required"].items
    ensures TypeName(schema) == name && name != "" <==> "type" in schema && schema["type"] == Text(name) && name != ""
  {
    if name in Declared(schema) && Declared(schema)[name] == property {
      assert TableAt(schema, "properties", MapAt(schema, "properties").value);
    }
  }

  // A value is listed by what it prints as: a text as itself.
  lemma ValuesAreRead(schema: Object, value: string)
    ensures EnumOf(schema).Some? <==> "enum" in schema && schema["enum"].List?
    ensures EnumOf(schema).Some? ==>
      && (EnumOf(schema).value == [] <==> schema["enum"].items == [])
      && (value in EnumOf(schema).value <==>
            exists item :: item in schema["enum"].items && (item == Text(value) || (!item.Text? && item.shown == value)))
  {
    if EnumOf(schema).Some? {
      var items, listed := schema["enum"].items, EnumOf(schema).value;
      if value in listed {
        var i :| 0 <= i < |listed| && listed[i] == value;
        assert items[i] in items;
      }
      if item :| item in items && (item == Text(value) || (!item.Text? && item.shown == value)) {
        var i :| 0 <= i < |items| && items[i] == item;
        assert listed[i] == value;
      }
    }
  }
}
