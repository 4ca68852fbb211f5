/**
 * What the HTTP contract gate lets through that does break a deployed client,
 * each shown on two documents between which it reports nothing; and a change it
 * reports that breaks nobody.
 */
module HttpBlindSpots {
  import opened Wrappers
  import opened Documents
  import opened HttpGate
  import opened HttpVerdict
  import opened HttpMeaning
  import opened HttpRequests
  import opened HttpResponses
  import opened HttpExamples
  import opened Sums

  // A type keyword that is a list of two names.
  function EitherOf(one: string, other: string): Object {
    map["type" := List([Text(one), Text(other)], "")]
  }

  function JustOneOf(one: string): Object {
    map["type" := List([Text(one)], "")]
  }

  lemma ListsRead(one: string, other: string)
    ensures TypesOf(EitherOf(one, other)) == Some({one, other}) && TypesOf(JustOneOf(one)) == Some({one})
    ensures TypeName(EitherOf(one, other)) == "" && TypeName(JustOneOf(one)) == ""
    ensures "$ref" !in EitherOf(one, other) && "$ref" !in JustOneOf(one)
    ensures EnumOf(EitherOf(one, other)).None? && EnumOf(JustOneOf(one)).None?
  {
    assert "type"[0] != "$ref"[0] && "type"[0] != "enum"[0];
    assert TextsOf([Text(one), Text(other)]) == {one, other} by {
      assert [Text(one), Text(other)][0] == Text(one) && [Text(one), Text(other)][1] == Text(other);
    }
    assert TextsOf([Text(one)]) == {one} by { assert [Text(one)][0] == Text(one); }
  }

  lemma OnePropertyFits(d: Document, property: Object, v: Value)
    requires "$ref" !in property
    ensures Conforms(TAGGED, d, OneProperty(property), map["p" := v]) <==> Admits(TAGGED, property, v)
  {
    OnePropertyReads(d, property);
    ResolvedIsMeaning(d, Some(property));
    assert Resolved(d, Some(property)) == Some(property);
    assert "p" in Declared(OneProperty(property)) && "p" in map["p" := v];
  }

  lemma TakingAccepts(property: Object, v: Value)
    requires "$ref" !in property
    ensures Accepts(TAGGED, Hosting(Taking(OneProperty(property))), Taking(OneProperty(property)), map["p" := v])
      <==> Admits(TAGGED, property, v)
  {
    var d := Hosting(Taking(OneProperty(property)));
    TakingReads(OneProperty(property));
    OnePropertyReads(d, property);
    ResolvedIsMeaning(d, Some(OneProperty(property)));
    OnePropertyFits(d, property, v);
  }

  // Two documents that differ in one property of a request, a body the first takes
  // and the second refuses, and nothing reported.
  ghost predicate RequestGoesUnseen(before: Object, after: Object, v: Value) {
    var was, now := Taking(OneProperty(before)), Taking(OneProperty(after));
    && AllBreaks(Hosting(was), Hosting(now)) == multiset{}
    && Accepts(TAGGED, Hosting(was), was, map["p" := v]) && !Accepts(TAGGED, Hosting(now), now, map["p" := v])
  }

  lemma UnseenInRequest(before: Object, after: Object, v: Value)
    requires "$ref" !in before && "$ref" !in after
    requires KeepsValues(before, after) && !TypeChanged(before, after)
    requires Admits(TAGGED, before, v) && !Admits(TAGGED, after, v)
    ensures RequestGoesUnseen(before, after, v)
  {
    TakingHolds(before, after);
    TakingAccepts(before, v);
    TakingAccepts(after, v);
  }

  // The same of a response: a body that conforms, and does not deliver.
  ghost predicate ResponseGoesUnseen(before: Object, after: Object, v: Value) {
    var was, now := OneProperty(before), OneProperty(after);
    var d, e := Hosting(Answering(was)), Hosting(Answering(now));
    && AllBreaks(d, e) == multiset{} && Conforms(TAGGED, e, now, map["p" := v])
    && !Delivers(TAGGED, RequiredNames(was), Properties(d, was), Properties(e, now), map["p" := v])
  }

  lemma UnseenInResponse(before: Object, after: Object, v: Value)
    requires "$ref" !in before && "$ref" !in after && !TypeChanged(before, after)
    requires Admits(TAGGED, after, v) && !OneOfTypes(TAGGED, TypesOf(before), v)
    ensures ResponseGoesUnseen(before, after, v)
  {
    var d, e := Hosting(Answering(OneProperty(before))), Hosting(Answering(OneProperty(after)));
    AnsweringHolds(before, after);
    OnePropertyFits(e, after, v);
    NotDelivered(d, e, before, after, v);
  }

  lemma NotDelivered(d: Document, e: Document, before: Object, after: Object, v: Value)
    requires "$ref" !in before && "$ref" !in after && !OneOfTypes(TAGGED, TypesOf(before), v)
    ensures !Delivers(TAGGED, RequiredNames(OneProperty(before)), Properties(d, OneProperty(before)),
                      Properties(e, OneProperty(after)), map["p" := v])
  {
    OnePropertyReads(d, before);
    OnePropertyReads(e, after);
    assert "p" in Properties(d, OneProperty(before)) && "p" in Properties(e, OneProperty(after));
  }

  // ------------------------------------------------------------- in a request

  // A property that may be one of two types comes to take only one.
  lemma NarrowedListGoesUnseen(one: string, other: string)
    requires one != other
    ensures RequestGoesUnseen(EitherOf(one, other), JustOneOf(one), Value(other, ""))
  {
    ListsRead(one, other);
    var v := Value(other, "");
    assert TAGGED(v, other) && !TAGGED(v, one);
    UnseenInRequest(EitherOf(one, other), JustOneOf(one), v);
  }

  // A property of any type comes to have one.
  lemma GainedTypeGoesUnseen(one: string, other: string)
    requires one != other
    ensures RequestGoesUnseen(map[], Typed(one), Value(other, ""))
  {
    TypedReads(one);
    var v := Value(other, "");
    assert !TAGGED(v, one);
    assert TypesOf(Typed(one)) == Some({one}) && !Admits(TAGGED, Typed(one), v);
    UnseenInRequest(map[], Typed(one), v);
  }

  // A property of any value comes to take listed ones only.
  lemma GainedListGoesUnseen(name: string, listed: string, other: string)
    requires listed != other
    ensures RequestGoesUnseen(Typed(name), OneOf(name, [Text(listed)]), Value(name, other))
  {
    TypedReads(name);
    OneOfReads(name, [Text(listed)]);
    var v := Value(name, other);
    assert TAGGED(v, name) && TypesOf(Typed(name)) == Some({name});
    assert PrintedAll([Text(listed)]) == [listed];
    UnseenInRequest(Typed(name), OneOf(name, [Text(listed)]), v);
  }

  // A property of listed values comes to list none, which nothing satisfies.
  lemma EmptiedListGoesUnseen(name: string, listed: string)
    ensures RequestGoesUnseen(OneOf(name, [Text(listed)]), OneOf(name, []), Value(name, listed))
  {
    OneOfReads(name, [Text(listed)]);
    OneOfReads(name, []);
    var v := Value(name, listed);
    assert TAGGED(v, name);
    assert PrintedAll([Text(listed)]) == [listed] && PrintedAll([]) == [];
    UnseenInRequest(OneOf(name, [Text(listed)]), OneOf(name, []), v);
  }

  function OneOf(name: string, values: seq<Node>): Object {
    map["type" := Text(name), "enum" := List(values, "")]
  }

  lemma OneOfReads(name: string, values: seq<Node>)
    ensures "$ref" !in OneOf(name, values) && TypeName(OneOf(name, values)) == name
    ensures TypesOf(OneOf(name, values)) == Some({name}) && EnumOf(OneOf(name, values)) == Some(PrintedAll(values))
  {
    assert "type"[0] != "$ref"[0] && "enum"[0] != "$ref"[0] && "type"[0] != "enum"[0];
  }

  // ------------------------------------------------------------ in a response

  // A property given as a list of one type comes to have another.
  lemma RetypedListGoesUnseen(one: string, other: string)
    requires one != other
    ensures ResponseGoesUnseen(JustOneOf(one), Typed(other), Value(other, ""))
  {
    ListsRead(one, other);
    TypedReads(other);
    var v := Value(other, "");
    assert TAGGED(v, other) && !TAGGED(v, one) && TypesOf(Typed(other)) == Some({other});
    UnseenInResponse(JustOneOf(one), Typed(other), v);
  }

  // A property of one type comes to have any.
  lemma LostTypeGoesUnseen(one: string, other: string)
    requires one != other
    ensures ResponseGoesUnseen(Typed(one), map[], Value(other, ""))
  {
    TypedReads(one);
    var v := Value(other, "");
    assert !TAGGED(v, one) && TypesOf(Typed(one)) == Some({one});
    UnseenInResponse(Typed(one), map[], v);
  }

  // -------------------------------------------------- whole bodies and answers

  // A request whose body schema means nothing any more is not compared, and
  // accepts no body at all.
  lemma LostBodySchemaGoesUnseen(
      previous: Document, current: Document, where: string, before: Object, after: Object, has: Typing, body: Body)
    requires Meaning(current, BodySchema(after)).None?
    ensures RequestBreaks(previous, current, where, before, after) == multiset{}
    ensures !Accepts(has, current, after, body)
  {
    if ResolvedBody(current, after).Some? { ResolvedIsMeaning(current, BodySchema(after)); }
  }

  // So a release that drops the body of its one operation passes.
  lemma DroppedBodyPasses(property: Object, body: Body)
    requires "$ref" !in property
    ensures AllBreaks(Hosting(Taking(OneProperty(property))), Hosting(map[])) == multiset{}
    ensures !Accepts(TAGGED, Hosting(map[]), map[], body)
  {
    var was := Taking(OneProperty(property));
    HostingHolds(was, map[]);
    TakingReads(OneProperty(property));
    NothingMeansNothing(Hosting(map[]));
  }

  lemma NothingMeansNothing(d: Document)
    ensures BodySchema(map[]) == None && ResolvedBody(d, map[]) == None && Meaning(d, None) == None
    ensures MapAt(map[], "responses") == None
  {
    forall k: nat, end | EndsAt(d, None, k, end) ensures false {}
  }

  // An operation that drops its responses is not compared on any status.
  lemma LostResponsesGoUnseen(previous: Document, current: Document, where: string, before: Object, after: Object)
    requires MapAt(after, "responses").None?
    ensures ResponseBreaks(previous, current, where, before, after) == multiset{}
  {
  }

  // So a release that drops the answer of its one operation passes, and serves
  // nobody.
  lemma DroppedResponsesPass(property: Object)
    requires "$ref" !in property
    ensures var was, d, e := OneProperty(property), Hosting(Answering(OneProperty(property))), Hosting(map[]);
      && AllBreaks(d, e) == multiset{}
      && SuccessBody(d, "/p", "post", "200") == Some(was)
      && !Serves(d, e, "/p", "post", "200", was)
  {
    var was := OneProperty(property);
    var d, e := Hosting(Answering(was)), Hosting(map[]);
    HostingHolds(Answering(was), map[]);
    AnsweringReads(was);
    NothingMeansNothing(e);
    HostingReads(Answering(was));
    HostingReads(map[]);
    OnePropertyReads(d, property);
    assert MapIn(MapAt(Answering(was), "responses"), "200") == Some(Carrying(was));
    assert SuccessSchema(e, "/p", "post", "200") == None;
  }

  // -------------------------------------------------- reported for nothing

  // The reading in which every integer is a number.
  const NUMERIC: Typing := (v: Value, name: string) => v.kind == name || (v.kind == "integer" && name == "number")

  // An integer that comes to be any number is reported, and refuses nothing.
  lemma IntegerToNumberIsReported(where: string, integer: string, number: string, body: Body)
    requires integer == "integer" && number == "number"
    ensures var was, now := Taking(OneProperty(Typed(integer))), Taking(OneProperty(Typed(number)));
      var d, e := Hosting(was), Hosting(now);
      && AllBreaks(d, e) != multiset{}
      && Break(where, RequestTypeChanged("p", integer, number)) in RequestBreaks(d, e, where, was, now)
      && !AdmitsOutside(NUMERIC, Properties(d, OneProperty(Typed(integer))), "p", number)
      && (Accepts(NUMERIC, d, was, body) ==> Accepts(NUMERIC, e, now, body))
  {
    assert integer[0] == 'i' && number[0] == 'n';
    TypeChangeIsReported(where, integer, number);
    WiderTypeAccepts(NUMERIC, integer, number, body);
  }

  lemma TakingOneReads(property: Object)
    requires "$ref" !in property
    ensures var operation := Taking(OneProperty(property));
      && ResolvedBody(Hosting(operation), operation) == Some(OneProperty(property))
      && Properties(Hosting(operation), OneProperty(property)) == map["p" := property]
      && RequiredNames(OneProperty(property)) == {}
  {
    TakingReads(OneProperty(property));
    OnePropertyReads(Hosting(Taking(OneProperty(property))), property);
  }

  lemma TypeChangeIsReported(where: string, one: string, other: string)
    requires one != other && one != "" && other != ""
    ensures var was, now := Taking(OneProperty(Typed(one))), Taking(OneProperty(Typed(other)));
      && AllBreaks(Hosting(was), Hosting(now)) != multiset{}
      && Break(where, RequestTypeChanged("p", one, other)) in RequestBreaks(Hosting(was), Hosting(now), where, was, now)
  {
    TypedReads(one);
    TypedReads(other);
    TakingHolds(Typed(one), Typed(other));
    TakingOneReads(Typed(one));
    TakingOneReads(Typed(other));
    TypeChangeIsPart(where, one, other);
    var was, now := Taking(OneProperty(Typed(one))), Taking(OneProperty(Typed(other)));
    PartIsReported(Hosting(was), Hosting(now), where, was, now, "p", Break(where, RequestTypeChanged("p", one, other)));
  }

  lemma PartIsReported(d: Document, e: Document, where: string, was: Object, now: Object, name: string, b: Break)
    requires ResolvedBody(d, was).Some? && ResolvedBody(e, now).Some?
    requires var p, q := Properties(d, ResolvedBody(d, was).value), Properties(e, ResolvedBody(e, now).value);
      name in p.Keys && b in RequestPart(where, p, q)(name)
    ensures b in RequestBreaks(d, e, where, was, now)
  {
    var p, q := Properties(d, ResolvedBody(d, was).value), Properties(e, ResolvedBody(e, now).value);
    SumMember(p.Keys, RequestPart(where, p, q), b);
  }

  lemma TypeChangeIsPart(where: string, one: string, other: string)
    requires one != other && one != "" && other != ""
    ensures var p, q := map["p" := Typed(one)], map["p" := Typed(other)];
      "p" in p.Keys && Break(where, RequestTypeChanged("p", one, other)) in RequestPart(where, p, q)("p")
  {
    TypedReads(one);
    TypedReads(other);
  }

  // Where one type covers all that another does, a body of the one fits the other.
  lemma WiderTypeAccepts(has: Typing, one: string, other: string, body: Body)
    requires forall v | has(v, one) :: has(v, other)
    ensures var was, now := Taking(OneProperty(Typed(one))), Taking(OneProperty(Typed(other)));
      && !AdmitsOutside(has, Properties(Hosting(was), OneProperty(Typed(one))), "p", other)
      && (Accepts(has, Hosting(was), was, body) ==> Accepts(has, Hosting(now), now, body))
  {
    TypedReads(one);
    TypedReads(other);
    TakingOneReads(Typed(one));
    TakingOneReads(Typed(other));
    var was, now := Taking(OneProperty(Typed(one))), Taking(OneProperty(Typed(other)));
    AcceptsIsFits(has, Hosting(was), was, OneProperty(Typed(one)), body);
    AcceptsOneWhenFits(has, other, body);
    forall v ensures Admits(has, Typed(one), v) ==> has(v, other) && Admits(has, Typed(other), v) {
      assert TypesOf(Typed(one)) == Some({one}) && TypesOf(Typed(other)) == Some({other});
    }
  }

  lemma AcceptsOneWhenFits(has: Typing, name: string, body: Body)
    ensures var operation := Taking(OneProperty(Typed(name)));
      Accepts(has, Hosting(operation), operation, body) <== Fits(has, map["p" := Typed(name)], {}, body)
  {
    var operation := Taking(OneProperty(Typed(name)));
    TypedReads(name);
    TakingOneReads(Typed(name));
    OnePropertyReads(Hosting(operation), Typed(name));
    AcceptsIsFits(has, Hosting(operation), operation, OneProperty(Typed(name)), body);
  }
}
