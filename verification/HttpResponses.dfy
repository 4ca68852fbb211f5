/**
 * What the HTTP contract gate's silence says of responses: what an old client
 * relies on is still delivered, up to what the gate cannot see.
 */
module HttpResponses {
  import opened Wrappers
  import opened Documents
  import opened HttpGate
  import opened HttpVerdict
  import opened HttpMeaning

  // What an old client counts on in a response body.
  ghost predicate Delivers(
      has: Typing, required: set<string>, before: map<string, Object>, after: map<string, Object>, body: Body)
  {
    && required <= body.Keys
    && forall name | name in before && name in after && name in body ::
         OneOfTypes(has, TypesOf(before[name]), body[name])
  }

  // What the gate cannot see here: a response property losing its type, or
  // coming to allow others, where one side is not a single name.
  ghost predicate NoPropertyWidens(before: map<string, Object>, after: map<string, Object>) {
    forall name | name in before && name in after ::
      TypesCompared(before[name], after[name]) || TypesWithin(TypesOf(after[name]), TypesOf(before[name]))
  }

  // Silence means a new response still serves an old client: every guaranteed
  // property is there, and whatever is there has its old type.
  lemma SilenceKeepsResponses(
      has: Typing, previous: Document, current: Document, was: Object, now: Object, body: Body)
    requires BodyHolds(previous, current, was, now)
    requires ReferencesResolve(current, now)
    requires NoPropertyWidens(Properties(previous, was), Properties(current, now))
    requires Conforms(has, current, now, body)
    ensures Delivers(has, RequiredNames(was), Properties(previous, was), Properties(current, now), body)
    ensures RequiredNames(was) <= Properties(current, now).Keys
  {
    ConformsIsFits(has, current, now, body);
    var p, q := Properties(previous, was), Properties(current, now);
    forall name | name in p && name in q && name in body
      ensures OneOfTypes(has, TypesOf(p[name]), body[name])
    {
      assert Admits(has, q[name], body[name]) && !TypeChanged(p[name], q[name]);
    }
  }

  // The same for a whole document: every successful status an old client knows
  // is still there if the responses are, and what comes back under it still serves
  // that client.
  lemma SilentGateKeepsResponses(
      has: Typing, previous: Document, current: Document, path: string, verb: string, before: Object, after: Object,
      status: string, was: Object, now: Object, body: Body)
    requires ComparedSilently(previous, current, path, verb, before, after)
    requires IsSuccess(status) && SuccessBody(previous, path, verb, status) == Some(was)
    ensures MapAt(after, "responses").Some? ==> MapIn(MapAt(after, "responses"), status).Some?
    ensures
      && SuccessBody(current, path, verb, status) == Some(now) && ReferencesResolve(current, now)
      && NoPropertyWidens(Properties(previous, was), Properties(current, now))
      && Conforms(has, current, now, body) ==>
        && Delivers(has, RequiredNames(was), Properties(previous, was), Properties(current, now), body)
        && RequiredNames(was) <= Properties(current, now).Keys
  {
    SilentOperationHolds(previous, current, path, verb, before, after);
    if MapAt(after, "responses").Some? {
      var old', new' := MapAt(before, "responses").value, MapAt(after, "responses").value;
      assert StatusHolds(previous, current, old', new', status);
      if && SuccessBody(current, path, verb, status) == Some(now) && ReferencesResolve(current, now)
         && NoPropertyWidens(Properties(previous, was), Properties(current, now))
         && Conforms(has, current, now, body)
      {
        SilenceKeepsResponses(has, previous, current, was, now, body);
      }
    }
  }

  // For two body schemas, silence is enough exactly when no property widened.
  lemma ResponsesKeptExactlyWhenTypesKept(previous: Document, current: Document, was: Object, now: Object)
    requires BodyHolds(previous, current, was, now)
    requires ReferencesResolve(current, now)
    requires AllInhabited(TAGGED, Properties(current, now))
    ensures NoPropertyWidens(Properties(previous, was), Properties(current, now)) <==>
      forall body: Body | Conforms(TAGGED, current, now, body) ::
        Delivers(TAGGED, RequiredNames(was), Properties(previous, was), Properties(current, now), body)
  {
    var p, q := Properties(previous, was), Properties(current, now);
    if NoPropertyWidens(p, q) {
      forall body: Body | Conforms(TAGGED, current, now, body)
        ensures Delivers(TAGGED, RequiredNames(was), p, q, body)
      {
        SilenceKeepsResponses(TAGGED, previous, current, was, now, body);
      }
    } else {
      var body := WidenedTypeMisleads(p, RequiredNames(was), q, RequiredNames(now));
      ConformsIsFits(TAGGED, current, now, body);
    }
  }

  lemma WidenedTypeMisleads(
      p: map<string, Object>, required: set<string>, q: map<string, Object>, newly: set<string>)
    returns (body: Body)
    requires AllInhabited(TAGGED, q) && !NoPropertyWidens(p, q)
    ensures Fits(TAGGED, q, newly, body) && !Delivers(TAGGED, required, p, q, body)
  {
    var name :| name in p && name in q && !TypesCompared(p[name], q[name])
      && !TypesWithin(TypesOf(q[name]), TypesOf(p[name]));
    var kind := TypeBetween(TypesOf(q[name]), TypesOf(p[name]));
    var v := Value(kind, Fitting(TAGGED, q[name]).shown);
    assert TAGGED(v, kind);
    body := PuttingIn(TAGGED, q, newly, name, v);
    assert !OneOfTypes(TAGGED, TypesOf(p[name]), body[name]);
  }

  // The schema of a successful response, before its references are followed.
  ghost function SuccessSchema(d: Document, path: string, verb: string, status: string): Option<Object> {
    if path !in Paths(d) then None
    else
      var response := MapIn(MapIn(MapAt(Paths(d)[path], verb), "responses"), status);
      if response.None? then None else BodySchema(response.value)
  }

  // The new operation still answers under a status with something an old client
  // can use.
  ghost predicate Serves(
      previous: Document, current: Document, path: string, verb: string, status: string, was: Object)
  {
    var now := Meaning(current, SuccessSchema(current, path, verb, status));
    && now.Some?
    && forall body: Body | Conforms(TAGGED, current, now.value, body) ::
         Delivers(TAGGED, RequiredNames(was), Properties(previous, was), Properties(current, now.value), body)
  }

  // After a silent comparison, an old client is served under a success status
  // exactly when the new operation still has its responses and a body schema for
  // that status that means something, and no shared property widened.
  lemma ServedExactlyWhenTypesKept(
      previous: Document, current: Document, path: string, verb: string, before: Object, after: Object,
      status: string, was: Object)
    requires ComparedSilently(previous, current, path, verb, before, after)
    requires IsSuccess(status) && SuccessBody(previous, path, verb, status) == Some(was)
    requires WithinReach(current)
    requires var now := SuccessBody(current, path, verb, status);
      now.Some? ==> ReferencesResolve(current, now.value) && AllInhabited(TAGGED, Properties(current, now.value))
    ensures Serves(previous, current, path, verb, status, was) <==>
      && SuccessBody(current, path, verb, status).Some?
      && NoPropertyWidens(Properties(previous, was), Properties(current, SuccessBody(current, path, verb, status).value))
  {
    var schema := SuccessSchema(current, path, verb, status);
    assert SuccessBody(current, path, verb, status) == Resolved(current, schema);
    if Resolved(current, schema).Some? {
      ResolvedIsMeaning(current, schema);
      SharedStatusHolds(previous, current, path, verb, before, after, status, was);
      ResponsesKeptExactlyWhenTypesKept(previous, current, was, Resolved(current, schema).value);
    }
  }

  lemma SharedStatusHolds(
      previous: Document, current: Document, path: string, verb: string, before: Object, after: Object,
      status: string, was: Object)
    requires ComparedSilently(previous, current, path, verb, before, after)
    requires IsSuccess(status) && SuccessBody(previous, path, verb, status) == Some(was)
    requires SuccessBody(current, path, verb, status).Some?
    ensures BodyHolds(previous, current, was, SuccessBody(current, path, verb, status).value)
  {
    SilentOperationHolds(previous, current, path, verb, before, after);
    var old', new' := MapAt(before, "responses").value, MapAt(after, "responses").value;
    assert StatusHolds(previous, current, old', new', status);
  }
}
