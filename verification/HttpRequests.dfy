/**
 * What the HTTP contract gate says of requests, against what a schema accepts:
 * its silence keeps the bodies an old client sends, up to what it cannot see,
 * and what it reports is refused.
 */
module HttpRequests {
  import opened Wrappers
  import opened Documents
  import opened HttpGate
  import opened HttpVerdict
  import opened HttpMeaning
  import opened Sums
  import Ordering

  // What the gate cannot see: types narrowed where one side is not a single name,
  // a list of values gained, or an empty list left, which nothing satisfies.
  ghost predicate GainsNothing(before: Object, after: Object) {
    && (TypesCompared(before, after) || TypesWithin(TypesOf(before), TypesOf(after)))
    && (EnumOf(before).None? ==> EnumOf(after).None?)
    && (EnumOf(after) == Some([]) ==> EnumOf(before) == Some([]))
  }

  ghost predicate NoPropertyGains(before: map<string, Object>, after: map<string, Object>) {
    forall name | name in before && name in after :: GainsNothing(before[name], after[name])
  }

  lemma NarrowedNeverRefuses(has: Typing, before: Object, after: Object, v: Value)
    requires KeepsValues(before, after) && !TypeChanged(before, after) && GainsNothing(before, after)
    requires Admits(has, before, v)
    ensures Admits(has, after, v)
  {
  }

  lemma RequestStillFits(
      has: Typing, previous: Document, current: Document, was: Object, now: Object, body: Body)
    requires RequestHolds(previous, current, was, now)
    requires NoPropertyGains(Properties(previous, was), Properties(current, now))
    requires body.Keys <= Properties(previous, was).Keys
    requires Fits(has, Properties(previous, was), RequiredNames(was), body)
    ensures Fits(has, Properties(current, now), RequiredNames(now), body)
  {
    var p, q := Properties(previous, was), Properties(current, now);
    forall name | name in q && name in body ensures Admits(has, q[name], body[name]) {
      assert name in p && GainsNothing(p[name], q[name]);
      NarrowedNeverRefuses(has, p[name], q[name], body[name]);
    }
  }

  // Silence means an old request is still accepted: every body of declared
  // properties the old operation accepts, the new one accepts, whatever values
  // the type names are taken to cover.
  lemma SilenceKeepsRequests(
      has: Typing, previous: Document, current: Document, path: string, verb: string,
      before: Object, after: Object, was: Object, now: Object, body: Body)
    requires ComparedSilently(previous, current, path, verb, before, after)
    requires ResolvedBody(previous, before) == Some(was) && ResolvedBody(current, after) == Some(now)
    requires ReferencesResolve(previous, was) && ReferencesResolve(current, now)
    requires NoPropertyGains(Properties(previous, was), Properties(current, now))
    requires body.Keys <= Declared(was).Keys
    requires Accepts(has, previous, before, body)
    ensures Accepts(has, current, after, body)
  {
    SilentOperationHolds(previous, current, path, verb, before, after);
    AcceptsIsFits(has, previous, before, was, body);
    AcceptsIsFits(has, current, after, now, body);
    RequestStillFits(has, previous, current, was, now, body);
  }

  // --------------------------------------------------- no false alarms

  // A changed type matters only to a value outside the new one: a property that
  // goes from integer to number refuses nothing it took.
  ghost predicate AdmitsOutside(has: Typing, properties: map<string, Object>, name: string, to: string) {
    name in properties && exists v :: Admits(has, properties[name], v) && !has(v, to)
  }

  // Every break reported for a request is real: a body the old operation
  // accepts and the new one refuses, for exactly the reason given.
  lemma RequestBreakHasWitness(
      has: Typing, previous: Document, current: Document, where: string,
      before: Object, after: Object, b: Break) returns (body: Body)
    requires b in RequestBreaks(previous, current, where, before, after)
    requires ReferencesResolve(previous, ResolvedBody(previous, before).value)
    requires AllInhabited(has, Properties(previous, ResolvedBody(previous, before).value))
    requires b.change.RequestTypeChanged? ==>
      AdmitsOutside(has, Properties(previous, ResolvedBody(previous, before).value), b.change.name, b.change.to)
    ensures Accepts(has, previous, before, body) && !Accepts(has, current, after, body)
    ensures b.change.NowRequired? ==> b.change.name !in body
    ensures b.change.ValueRefused? ==> b.change.name in body && body[b.change.name].shown == b.change.value
    ensures b.change.RequestTypeChanged? ==>
      b.change.name in body && has(body[b.change.name], b.change.from) && !has(body[b.change.name], b.change.to)
  {
    var was, now := ResolvedBody(previous, before).value, ResolvedBody(current, after).value;
    var p, q := Properties(previous, was), Properties(current, now);
    if b in NewlyRequired(where, RequiredNames(now) - RequiredNames(was)) {
      body := LeavingOut(has, p, RequiredNames(was), b.change.name);
    } else {
      body := NarrowingHasWitness(has, where, p, q, RequiredNames(was), RequiredNames(now), b);
    }
    AcceptsIsFits(has, previous, before, was, body);
    AcceptsIsFits(has, current, after, now, body);
  }

  lemma NarrowingHasWitness(
      has: Typing, where: string, p: map<string, Object>, q: map<string, Object>,
      required: set<string>, newly: set<string>, b: Break) returns (body: Body)
    requires b in Sum(p.Keys, RequestPart(where, p, q)) && AllInhabited(has, p)
    requires b.change.RequestTypeChanged? ==> AdmitsOutside(has, p, b.change.name, b.change.to)
    ensures Fits(has, p, required, body) && !Fits(has, q, newly, body)
    ensures b.change.ValueRefused? || b.change.RequestTypeChanged?
    ensures b.change.ValueRefused? ==> b.change.name in body && body[b.change.name].shown == b.change.value
    ensures b.change.RequestTypeChanged? ==>
      b.change.name in body && has(body[b.change.name], b.change.from) && !has(body[b.change.name], b.change.to)
  {
    var name := BreakNamesProperty(where, p, q, b);
    if b.change.RequestTypeChanged? { RefusalsAreNotTypes(where, name, p[name], q[name], b); }
    var v := PropertyBreakHasWitness(has, where, name, p[name], q[name], b);
    body := PuttingIn(has, p, required, name, v);
  }

  lemma BreakNamesProperty(where: string, p: map<string, Object>, q: map<string, Object>, b: Break)
    returns (name: string)
    requires b in Sum(p.Keys, RequestPart(where, p, q))
    ensures name in p && name in q && b in PropertyRequestBreaks(where, name, p[name], q[name])
  {
    SumMember(p.Keys, RequestPart(where, p, q), b);
    name :| name in p.Keys && b in RequestPart(where, p, q)(name);
  }

  lemma PropertyBreakHasWitness(
      has: Typing, where: string, name: string, before: Object, after: Object, b: Break) returns (v: Value)
    requires b in PropertyRequestBreaks(where, name, before, after)
    requires Inhabited(has, before)
    requires b.change.RequestTypeChanged? ==> exists v :: Admits(has, before, v) && !has(v, b.change.to)
    ensures Admits(has, before, v) && !Admits(has, after, v)
    ensures b.change.ValueRefused? || b.change.RequestTypeChanged?
    ensures b.change.name == name
    ensures b.change.ValueRefused? ==> v.shown == b.change.value
    ensures b.change.RequestTypeChanged? ==> has(v, b.change.from) && !has(v, b.change.to)
  {
    var removed := RemovedValues(before, after);
    var refused := Ordering.Map(Refusal(where, name), removed);
    if b in multiset(refused) {
      var i :| 0 <= i < |refused| && refused[i] == b;
      Ordering.MissingMember(EnumOf(before).value, EnumOf(after).value, removed[i]);
      var kind :| Admits(has, before, Value(kind, removed[i]));
      v := Value(kind, removed[i]);
    } else {
      v :| Admits(has, before, v) && !has(v, b.change.to);
    }
  }

  // A body the old operation accepts, refused because of the type a break names.
  ghost predicate Witnesses(
      has: Typing, previous: Document, current: Document, before: Object, after: Object, b: Break, body: Body)
    requires b.change.RequestTypeChanged?
  {
    && Accepts(has, previous, before, body) && !Accepts(has, current, after, body)
    && b.change.name in body && !has(body[b.change.name], b.change.to)
  }

  // A reported change of type has such a body exactly when the old property
  // admits a value outside the new type.
  lemma TypeBreakHasWitnessExactlyWhen(
      has: Typing, previous: Document, current: Document, where: string, before: Object, after: Object, b: Break)
    requires b in RequestBreaks(previous, current, where, before, after) && b.change.RequestTypeChanged?
    requires ReferencesResolve(previous, ResolvedBody(previous, before).value)
    requires AllInhabited(has, Properties(previous, ResolvedBody(previous, before).value))
    ensures (exists body :: Witnesses(has, previous, current, before, after, b, body))
      <==> AdmitsOutside(has, Properties(previous, ResolvedBody(previous, before).value), b.change.name, b.change.to)
  {
    var was, now := ResolvedBody(previous, before).value, ResolvedBody(current, after).value;
    var p, q := Properties(previous, was), Properties(current, now);
    if AdmitsOutside(has, p, b.change.name, b.change.to) {
      var body := RequestBreakHasWitness(has, previous, current, where, before, after, b);
      assert Witnesses(has, previous, current, before, after, b, body);
    }
    if body :| Witnesses(has, previous, current, before, after, b, body) {
      AcceptsIsFits(has, previous, before, was, body);
      TypeBreakIsOfAProperty(where, p, q, RequiredNames(now) - RequiredNames(was), b);
      assert Admits(has, p[b.change.name], body[b.change.name]);
    }
  }

  lemma TypeBreakIsOfAProperty(
      where: string, p: map<string, Object>, q: map<string, Object>, newly: set<string>, b: Break)
    requires b in NewlyRequired(where, newly) + Sum(p.Keys, RequestPart(where, p, q)) && b.change.RequestTypeChanged?
    ensures b.change.name in p
  {
    var name := BreakNamesProperty(where, p, q, b);
    assert b in PropertyRequestBreaks(where, name, p[name], q[name]);
    RefusalsAreNotTypes(where, name, p[name], q[name], b);
  }

  lemma RefusalsAreNotTypes(where: string, name: string, before: Object, after: Object, b: Break)
    requires b in PropertyRequestBreaks(where, name, before, after) && b.change.RequestTypeChanged?
    ensures b.change.name == name
  {
    var refused := Ordering.Map(Refusal(where, name), RemovedValues(before, after));
    forall x: Break | x in multiset(refused) ensures x.change.ValueRefused? {
      assert x in refused;
    }
  }

  // --------------------------------------- exactly when silence is enough

  // With disjoint types, a property that gains what the gate cannot see really
  // does start refusing a value it took.
  lemma GainRefuses(before: Object, after: Object) returns (v: Value)
    requires Inhabited(TAGGED, before) && !GainsNothing(before, after)
    ensures Admits(TAGGED, before, v) && !Admits(TAGGED, after, v)
  {
    v := Fitting(TAGGED, before);
    if !TypesCompared(before, after) && !TypesWithin(TypesOf(before), TypesOf(after)) {
      var kind := TypeBetween(TypesOf(before), TypesOf(after));
      v := Value(kind, v.shown);
      assert TAGGED(v, kind);
    } else if EnumOf(before).None? && EnumOf(after).Some? {
      var shown := Ordering.FreshName(set value | value in EnumOf(after).value);
      var kept := v;
      v := Value(v.kind, shown);
      assert forall name :: TAGGED(v, name) == TAGGED(kept, name);
    }
  }

  lemma GainRefusesBody(
      p: map<string, Object>, required: set<string>, q: map<string, Object>, newly: set<string>)
    returns (body: Body)
    requires AllInhabited(TAGGED, p) && !NoPropertyGains(p, q)
    ensures Fits(TAGGED, p, required, body) && !Fits(TAGGED, q, newly, body)
    ensures body.Keys == p.Keys + required
  {
    var name :| name in p && name in q && !GainsNothing(p[name], q[name]);
    var v := GainRefuses(p[name], q[name]);
    body := PuttingIn(TAGGED, p, required, name, v);
  }

  // What is left of a request body: a schema that still means something, on which
  // no shared property lost its meaning or gained what the gate cannot see.
  ghost predicate RequestSurvives(previous: Document, current: Document, was: Object, after: Object) {
    var now := ResolvedBody(current, after);
    && now.Some?
    && (forall name | name in Declared(was) && name in Declared(now.value) :: name in Properties(current, now.value))
    && NoPropertyGains(Properties(previous, was), Properties(current, now.value))
  }

  lemma SurvivingRequestIsKept(
      previous: Document, current: Document, before: Object, after: Object, was: Object, body: Body)
    requires OperationHolds(previous, current, before, after)
    requires ResolvedBody(previous, before) == Some(was) && ReferencesResolve(previous, was)
    requires RequestSurvives(previous, current, was, after)
    requires body.Keys <= Declared(was).Keys && Accepts(TAGGED, previous, before, body)
    ensures Accepts(TAGGED, current, after, body)
  {
    var now := ResolvedBody(current, after).value;
    AcceptsIsFits(TAGGED, previous, before, was, body);
    RequestStillFits(TAGGED, previous, current, was, now, body);
    ResolvedIsMeaning(current, BodySchema(after));
    forall name | name in Declared(now) && name in body
      ensures Meaning(current, Some(Declared(now)[name])) == Some(Properties(current, now)[name])
    {
      ResolvedIsMeaning(current, Some(Declared(now)[name]));
    }
  }

  // An old body that a request which does not survive refuses.
  lemma LostRequestRefuses(previous: Document, current: Document, before: Object, after: Object, was: Object)
    returns (body: Body)
    requires ResolvedBody(previous, before) == Some(was) && ReferencesResolve(previous, was)
    requires AllInhabited(TAGGED, Properties(previous, was)) && RequiredNames(was) <= Declared(was).Keys
    requires WithinReach(current) && !RequestSurvives(previous, current, was, after)
    ensures body.Keys <= Declared(was).Keys && Accepts(TAGGED, previous, before, body)
    ensures !Accepts(TAGGED, current, after, body)
  {
    var p, now := Properties(previous, was), ResolvedBody(current, after);
    body := Sample(TAGGED, p, RequiredNames(was));
    AcceptsIsFits(TAGGED, previous, before, was, body);
    if now.Some? {
      ResolvedIsMeaning(current, BodySchema(after));
      if !NoPropertyGains(p, Properties(current, now.value)) {
        body := GainRefusesBody(p, RequiredNames(was), Properties(current, now.value), RequiredNames(now.value));
        AcceptsIsFits(TAGGED, previous, before, was, body);
        AcceptsIsFits(TAGGED, current, after, now.value, body);
      } else {
        var name :| name in Declared(was) && name in Declared(now.value) && name !in Properties(current, now.value);
        assert name in body && Meaning(current, Some(Declared(now.value)[name])).None?;
      }
    }
  }

  // After a silent comparison, old requests are all still accepted exactly when
  // the new operation still has a body schema, its shared properties still mean
  // something, and none gained a type or a list, or was left with an empty list.
  lemma RequestsKeptExactlyWhenNothingGained(
      previous: Document, current: Document, path: string, verb: string, before: Object, after: Object, was: Object)
    requires ComparedSilently(previous, current, path, verb, before, after)
    requires ResolvedBody(previous, before) == Some(was) && ReferencesResolve(previous, was)
    requires AllInhabited(TAGGED, Properties(previous, was)) && RequiredNames(was) <= Declared(was).Keys
    requires WithinReach(current)
    ensures RequestSurvives(previous, current, was, after) <==>
      forall body: Body | body.Keys <= Declared(was).Keys && Accepts(TAGGED, previous, before, body) ::
        Accepts(TAGGED, current, after, body)
  {
    SilentOperationHolds(previous, current, path, verb, before, after);
    if RequestSurvives(previous, current, was, after) {
      forall body: Body | body.Keys <= Declared(was).Keys && Accepts(TAGGED, previous, before, body)
        ensures Accepts(TAGGED, current, after, body)
      {
        SurvivingRequestIsKept(previous, current, before, after, was, body);
      }
    } else {
      var body := LostRequestRefuses(previous, current, before, after, was);
    }
  }
}
