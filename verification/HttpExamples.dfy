/**
 * Small documents the gate can be shown on: one path, one operation, one body.
 */
module HttpExamples {
  import opened Wrappers
  import opened Documents
  import opened HttpGate
  import opened HttpVerdict

  // A document with one operation.
  function Hosting(operation: Object): Document {
    Document(map["paths" := Table(map["/p" := Table(map["post" := Table(operation, "")], "")], "")])
  }

  // A request or a response body, by its schema.
  function Carrying(schema: Object): Object {
    map["content" := Table(map["application/json" := Table(map["schema" := Table(schema, "")], "")], "")]
  }

  // An operation taking one body.
  function Taking(schema: Object): Object {
    map["requestBody" := Table(Carrying(schema), "")]
  }

  // An operation answering with one body.
  function Answering(schema: Object): Object {
    map["responses" := Table(Answers(schema), "")]
  }

  function Answers(schema: Object): Object {
    map["200" := Table(Carrying(schema), "")]
  }

  function OneProperty(property: Object): Object {
    map["properties" := Table(map["p" := Table(property, "")], "")]
  }

  function Typed(name: string): Object {
    map["type" := Text(name)]
  }

  lemma HostingReads(operation: Object)
    ensures Paths(Hosting(operation)) == map["/p" := map["post" := Table(operation, "")]]
    ensures MapAt(Paths(Hosting(operation))["/p"], "post") == Some(operation)
    ensures forall verb | verb in METHODS && verb != "post" :: MapAt(Paths(Hosting(operation))["/p"], verb) == None
  {
    assert MapAt(Hosting(operation).raw, "paths").value == map["/p" := Table(map["post" := Table(operation, "")], "")];
  }

  // Between two such documents, silence is about their operations.
  lemma HostingHolds(a: Object, b: Object)
    ensures AllBreaks(Hosting(a), Hosting(b)) == multiset{} <==> OperationHolds(Hosting(a), Hosting(b), a, b)
  {
    SilentExactlyWhenItHolds(Hosting(a), Hosting(b));
    HostingReads(a);
    HostingReads(b);
    assert METHODS[2] == "post" && "post" in METHODS;
    var before, after := Paths(Hosting(a))["/p"], Paths(Hosting(b))["/p"];
    assert VerbHolds(Hosting(a), Hosting(b), before, after, "post") <==> OperationHolds(Hosting(a), Hosting(b), a, b);
    forall verb | verb in METHODS && verb != "post" ensures VerbHolds(Hosting(a), Hosting(b), before, after, verb) {}
  }

  lemma OnePropertyReads(d: Document, property: Object)
    requires "$ref" !in property
    ensures Resolved(d, Some(OneProperty(property))) == Some(OneProperty(property))
    ensures Properties(d, OneProperty(property)) == map["p" := property]
    ensures Declared(OneProperty(property)) == map["p" := property]
    ensures RequiredNames(OneProperty(property)) == {}
  {
    var schema := OneProperty(property);
    assert "required"[0] != "properties"[0] && "$ref"[0] != "properties"[0];
    assert RefOf(schema).None? && RefOf(property).None?;
    assert Declared(schema) == map["p" := property];
    assert Resolved(d, Some(property)) == Some(property) && Resolved(d, Some(schema)) == Some(schema);
  }

  lemma TakingReads(schema: Object)
    ensures BodySchema(Taking(schema)) == Some(schema) && MapAt(Taking(schema), "responses") == None
  {
    assert "content"[0] != "requestBody"[0] && "responses"[2] != "requestBody"[2];
    assert MapAt(Taking(schema), "requestBody") == Some(Carrying(schema));
  }

  lemma AnsweringReads(schema: Object)
    ensures BodySchema(Answering(schema)) == None
    ensures MapAt(Answering(schema), "responses") == Some(Answers(schema))
    ensures Answers(schema).Keys == {"200"} && MapAt(Answers(schema), "200") == Some(Carrying(schema))
    ensures BodySchema(Carrying(schema)) == Some(schema)
  {
    assert "content"[0] != "responses"[0] && "requestBody"[2] != "responses"[2];
    assert MapAt(Carrying(schema), "content").Some?;
  }

  lemma OnePropertyHolds(d: Document, e: Document, a: Object, b: Object, before: Object, after: Object)
    requires Properties(d, a) == map["p" := before] && Properties(e, b) == map["p" := after]
    requires RequiredNames(a) == {} && RequiredNames(b) == {}
    ensures RequestHolds(d, e, a, b) <==> KeepsValues(before, after) && !TypeChanged(before, after)
  {
    var p, q := Properties(d, a), Properties(e, b);
    assert "p" in p && "p" in q && p["p"] == before && q["p"] == after;
  }

  lemma TakingOperationHolds(d: Document, e: Document, before: Object, after: Object)
    requires "$ref" !in before && "$ref" !in after
    ensures OperationHolds(d, e, Taking(OneProperty(before)), Taking(OneProperty(after)))
      <==> KeepsValues(before, after) && !TypeChanged(before, after)
  {
    TakingReads(OneProperty(before));
    TakingReads(OneProperty(after));
    OnePropertyReads(d, before);
    OnePropertyReads(e, after);
    OnePropertyHolds(d, e, OneProperty(before), OneProperty(after), before, after);
  }

  // Requests of one property compare by that property.
  lemma TakingHolds(before: Object, after: Object)
    requires "$ref" !in before && "$ref" !in after
    ensures AllBreaks(Hosting(Taking(OneProperty(before))), Hosting(Taking(OneProperty(after)))) == multiset{}
      <==> KeepsValues(before, after) && !TypeChanged(before, after)
  {
    var a, b := Taking(OneProperty(before)), Taking(OneProperty(after));
    HostingHolds(a, b);
    TakingOperationHolds(Hosting(a), Hosting(b), before, after);
  }

  // Answers of one property compare by its type.
  lemma AnsweringHolds(before: Object, after: Object)
    requires "$ref" !in before && "$ref" !in after
    ensures AllBreaks(Hosting(Answering(OneProperty(before))), Hosting(Answering(OneProperty(after)))) == multiset{}
      <==> !TypeChanged(before, after)
  {
    var a, b := Answering(OneProperty(before)), Answering(OneProperty(after));
    HostingHolds(a, b);
    AnsweringOperationHolds(Hosting(a), Hosting(b), before, after);
  }

  // Operations that take nothing and answer under one status compare by its body.
  lemma OneStatusHolds(
      d: Document, e: Document, before: Object, after: Object, was: Object, now: Object, a: Object, b: Object)
    requires ResolvedBody(d, before) == None
    requires MapAt(before, "responses") == Some(was) && MapAt(after, "responses") == Some(now)
    requires was.Keys == {"200"} && MapAt(was, "200").Some? && MapAt(now, "200").Some?
    requires ResolvedBody(d, MapAt(was, "200").value) == Some(a) && ResolvedBody(e, MapAt(now, "200").value) == Some(b)
    ensures OperationHolds(d, e, before, after) <==> BodyHolds(d, e, a, b)
  {
    assert IsSuccess("200");
    assert "200" in was && (StatusHolds(d, e, was, now, "200") <==> BodyHolds(d, e, a, b));
    forall status | status in was ensures status == "200" { assert status in was.Keys; }
  }

  lemma AnsweringOperationHolds(d: Document, e: Document, before: Object, after: Object)
    requires "$ref" !in before && "$ref" !in after
    ensures OperationHolds(d, e, Answering(OneProperty(before)), Answering(OneProperty(after)))
      <==> !TypeChanged(before, after)
  {
    var a, b := OneProperty(before), OneProperty(after);
    AnsweringReads(a);
    AnsweringReads(b);
    OnePropertyReads(d, before);
    OnePropertyReads(e, after);
    OneAnswerHolds(d, e, a, b, before, after);
    OneStatusHolds(d, e, Answering(a), Answering(b), Answers(a), Answers(b), a, b);
  }

  lemma OneAnswerHolds(d: Document, e: Document, a: Object, b: Object, before: Object, after: Object)
    requires Properties(d, a) == map["p" := before] && Properties(e, b) == map["p" := after]
    requires RequiredNames(a) == {} && RequiredNames(b) == {}
    ensures BodyHolds(d, e, a, b) <==> !TypeChanged(before, after)
  {
    var p, q := Properties(d, a), Properties(e, b);
    assert "p" in p && "p" in q && p["p"] == before && q["p"] == after;
  }

  lemma TypedReads(name: string)
    ensures "$ref" !in Typed(name) && TypeName(Typed(name)) == name && EnumOf(Typed(name)).None?
  {
    assert "type"[0] != "$ref"[0] && "type"[0] != "enum"[0];
  }
}
