/**
 * Chaining the HTTP contract gate across releases: when two silent comparisons
 * in a row make the comparison across both silent, and what breaks it.
 */
module HttpChains {
  import opened Wrappers
  import opened Documents
  import opened HttpGate
  import opened HttpVerdict
  import opened HttpExamples

  // ------------------------------------------------- where the middle is mute

  // What the gate cannot carry across a middle release that does not say it, the
  // ends must agree on themselves: for a property, its type where the middle one
  // names none, and its values where the middle one lists none.
  ghost predicate TypeCarries(a: Object, b: Option<Object>, c: Object) {
    b.None? || TypeName(b.value) == "" ==> !TypeChanged(a, c)
  }

  ghost predicate ValuesCarry(a: Object, b: Option<Object>, c: Object) {
    b.None? || EnumOf(b.value).None? || EnumOf(b.value) == Some([]) ==> KeepsValues(a, c)
  }

  function Lookup(properties: map<string, Object>, name: string): Option<Object> {
    if name in properties then Some(properties[name]) else None
  }

  ghost predicate RequestCarries(
      first: Document, middle: Document, last: Document,
      a: Option<Object>, b: Option<Object>, c: Option<Object>)
  {
    a.Some? && c.Some? ==>
      if b.None? then RequestHolds(first, last, a.value, c.value)
      else
        var p, q, r := Properties(first, a.value), Properties(middle, b.value), Properties(last, c.value);
        forall name | name in p && name in r ::
          TypeCarries(p[name], Lookup(q, name), r[name]) && ValuesCarry(p[name], Lookup(q, name), r[name])
  }

  ghost predicate BodyCarries(
      first: Document, middle: Document, last: Document,
      a: Option<Object>, b: Option<Object>, c: Option<Object>)
  {
    a.Some? && c.Some? ==>
      if b.None? then BodyHolds(first, last, a.value, c.value)
      else
        var p, q, r := Properties(first, a.value), Properties(middle, b.value), Properties(last, c.value);
        forall name | name in p && name in r :: TypeCarries(p[name], Lookup(q, name), r[name])
  }

  ghost predicate StatusCarries(
      first: Document, middle: Document, last: Document, s: Object, t: Object, u: Object, status: string)
  {
    IsSuccess(status) && MapAt(s, status).Some? && MapAt(t, status).Some? && MapAt(u, status).Some? ==>
      BodyCarries(first, middle, last, ResolvedBody(first, MapAt(s, status).value),
        ResolvedBody(middle, MapAt(t, status).value), ResolvedBody(last, MapAt(u, status).value))
  }

  ghost predicate ResponsesCarry(
      first: Document, middle: Document, last: Document, s: Option<Object>, t: Option<Object>, u: Option<Object>)
  {
    s.Some? && u.Some? ==>
      forall status | status in s.value ::
        if t.None? then StatusHolds(first, last, s.value, u.value, status)
        else StatusCarries(first, middle, last, s.value, t.value, u.value, status)
  }

  ghost predicate OperationCarries(
      first: Document, middle: Document, last: Document, a: Object, b: Object, c: Object)
  {
    && RequestCarries(first, middle, last, ResolvedBody(first, a), ResolvedBody(middle, b), ResolvedBody(last, c))
    && ResponsesCarry(first, middle, last, MapAt(a, "responses"), MapAt(b, "responses"), MapAt(c, "responses"))
  }

  ghost predicate VerbCarries(first: Document, middle: Document, last: Document, path: string, verb: string) {
    && path in Paths(first) && path in Paths(middle) && path in Paths(last)
    && MapAt(Paths(first)[path], verb).Some? && MapAt(Paths(middle)[path], verb).Some?
    && MapAt(Paths(last)[path], verb).Some? ==>
    OperationCarries(first, middle, last, MapAt(Paths(first)[path], verb).value,
      MapAt(Paths(middle)[path], verb).value, MapAt(Paths(last)[path], verb).value)
  }

  ghost predicate Carries(first: Document, middle: Document, last: Document) {
    forall path, verb | verb in METHODS :: VerbCarries(first, middle, last, path, verb)
  }

  // ------------------------------------------------------- exactly when it chains

  lemma PropertyChains(a: Object, b: Object, c: Object)
    requires !TypeChanged(a, b) && !TypeChanged(b, c)
    ensures !TypeChanged(a, c) <==> TypeCarries(a, Some(b), c)
    ensures KeepsValues(a, b) && KeepsValues(b, c) ==> (KeepsValues(a, c) <==> ValuesCarry(a, Some(b), c))
  {
  }

  lemma RequestChains(first: Document, middle: Document, last: Document, a: Object, b: Object, c: Object)
    requires RequestHolds(first, middle, a, b) && RequestHolds(middle, last, b, c)
    ensures RequestHolds(first, last, a, c) <==> RequestCarries(first, middle, last, Some(a), Some(b), Some(c))
  {
    var p, q, r := Properties(first, a), Properties(middle, b), Properties(last, c);
    forall name | name in p && name in r
      ensures KeepsValues(p[name], r[name]) && !TypeChanged(p[name], r[name])
        <==> TypeCarries(p[name], Lookup(q, name), r[name]) && ValuesCarry(p[name], Lookup(q, name), r[name])
    {
      if name in q { PropertyChains(p[name], q[name], r[name]); }
    }
  }

  lemma BodyChains(first: Document, middle: Document, last: Document, a: Object, b: Object, c: Object)
    requires BodyHolds(first, middle, a, b) && BodyHolds(middle, last, b, c)
    ensures BodyHolds(first, last, a, c) <==> BodyCarries(first, middle, last, Some(a), Some(b), Some(c))
  {
    var p, q, r := Properties(first, a), Properties(middle, b), Properties(last, c);
    forall name | name in p && name in r
      ensures !TypeChanged(p[name], r[name]) <==> TypeCarries(p[name], Lookup(q, name), r[name])
    {
      if name in q { PropertyChains(p[name], q[name], r[name]); }
    }
  }

  lemma StatusChains(
      first: Document, middle: Document, last: Document, s: Object, t: Object, u: Object, status: string)
    requires StatusHolds(first, middle, s, t, status) && StatusHolds(middle, last, t, u, status)
    ensures StatusHolds(first, last, s, u, status) <==> StatusCarries(first, middle, last, s, t, u, status)
  {
    if IsSuccess(status) && MapAt(s, status).Some? {
      var a, b, c := ResolvedBody(first, MapAt(s, status).value), ResolvedBody(middle, MapAt(t, status).value),
                     ResolvedBody(last, MapAt(u, status).value);
      if a.Some? && b.Some? && c.Some? { BodyChains(first, middle, last, a.value, b.value, c.value); }
    }
  }

  lemma ResponsesChain(first: Document, middle: Document, last: Document, a: Object, b: Object, c: Object)
    requires OperationHolds(first, middle, a, b) && OperationHolds(middle, last, b, c)
    ensures var s, t, u := MapAt(a, "responses"), MapAt(b, "responses"), MapAt(c, "responses");
      (s.Some? && u.Some? ==> forall status | status in s.value :: StatusHolds(first, last, s.value, u.value, status))
      <==> ResponsesCarry(first, middle, last, s, t, u)
  {
    var s, t, u := MapAt(a, "responses"), MapAt(b, "responses"), MapAt(c, "responses");
    if s.Some? && t.Some? && u.Some? {
      forall status | status in s.value
        ensures StatusHolds(first, last, s.value, u.value, status)
          <==> StatusCarries(first, middle, last, s.value, t.value, u.value, status)
      {
        assert StatusHolds(first, middle, s.value, t.value, status);
        if MapAt(t.value, status).Some? { assert status in t.value; }
        if IsSuccess(status) && MapAt(s.value, status).Some? {
          assert StatusHolds(middle, last, t.value, u.value, status);
          StatusChains(first, middle, last, s.value, t.value, u.value, status);
        }
      }
    }
  }

  lemma OperationChains(first: Document, middle: Document, last: Document, a: Object, b: Object, c: Object)
    requires OperationHolds(first, middle, a, b) && OperationHolds(middle, last, b, c)
    ensures OperationHolds(first, last, a, c) <==> OperationCarries(first, middle, last, a, b, c)
  {
    var x, y, z := ResolvedBody(first, a), ResolvedBody(middle, b), ResolvedBody(last, c);
    if x.Some? && y.Some? && z.Some? { RequestChains(first, middle, last, x.value, y.value, z.value); }
    ResponsesChain(first, middle, last, a, b, c);
  }

  lemma VerbChains(first: Document, middle: Document, last: Document, path: string, verb: string)
    requires Holds(first, middle) && Holds(middle, last) && verb in METHODS && path in Paths(first)
    ensures path in Paths(middle) && path in Paths(last)
    ensures VerbHolds(first, last, Paths(first)[path], Paths(last)[path], verb)
      <==> VerbCarries(first, middle, last, path, verb)
  {
    assert VerbHolds(first, middle, Paths(first)[path], Paths(middle)[path], verb);
    assert VerbHolds(middle, last, Paths(middle)[path], Paths(last)[path], verb);
    if MapAt(Paths(first)[path], verb).Some? {
      OperationChains(first, middle, last, MapAt(Paths(first)[path], verb).value,
        MapAt(Paths(middle)[path], verb).value, MapAt(Paths(last)[path], verb).value);
    }
  }

  lemma VerbCarriedHolds(first: Document, middle: Document, last: Document, path: string, verb: string)
    requires Holds(first, middle) && Holds(middle, last) && Carries(first, middle, last)
    requires path in Paths(first) && verb in METHODS
    ensures path in Paths(last) && VerbHolds(first, last, Paths(first)[path], Paths(last)[path], verb)
  {
    assert VerbCarries(first, middle, last, path, verb);
    VerbChains(first, middle, last, path, verb);
  }

  lemma CarriesThenHolds(first: Document, middle: Document, last: Document)
    requires Holds(first, middle) && Holds(middle, last) && Carries(first, middle, last)
    ensures Holds(first, last)
  {
    forall path | path in Paths(first)
      ensures path in Paths(last)
      ensures forall verb | verb in METHODS :: VerbHolds(first, last, Paths(first)[path], Paths(last)[path], verb)
    {
      VerbCarriedHolds(first, middle, last, path, METHODS[0]);
      forall verb | verb in METHODS ensures VerbHolds(first, last, Paths(first)[path], Paths(last)[path], verb) {
        VerbCarriedHolds(first, middle, last, path, verb);
      }
    }
  }

  lemma HoldsThenCarries(first: Document, middle: Document, last: Document)
    requires Holds(first, middle) && Holds(middle, last) && Holds(first, last)
    ensures Carries(first, middle, last)
  {
    forall path, verb | verb in METHODS ensures VerbCarries(first, middle, last, path, verb) {
      if path in Paths(first) {
        VerbChains(first, middle, last, path, verb);
        assert VerbHolds(first, last, Paths(first)[path], Paths(last)[path], verb);
      } else {
        NothingToCarry(first, middle, last, path, verb);
      }
    }
  }

  lemma NothingToCarry(first: Document, middle: Document, last: Document, path: string, verb: string)
    requires path !in Paths(first)
    ensures VerbCarries(first, middle, last, path, verb)
  {
  }

  // After two silent comparisons the one across both is silent exactly when the
  // ends agree wherever the middle release does not speak: on a property whose
  // type, values or whole declaration it dropped, on a body whose schema it
  // dropped, and on the statuses of an operation whose responses it dropped.
  lemma SilenceChainsExactlyWhen(first: Document, middle: Document, last: Document)
    requires AllBreaks(first, middle) == multiset{} && AllBreaks(middle, last) == multiset{}
    ensures AllBreaks(first, last) == multiset{} <==> Carries(first, middle, last)
  {
    SilentExactlyWhenItHolds(first, middle);
    SilentExactlyWhenItHolds(middle, last);
    SilentExactlyWhenItHolds(first, last);
    if Holds(first, last) { HoldsThenCarries(first, middle, last); }
    if Carries(first, middle, last) { CarriesThenHolds(first, middle, last); }
  }

  // ------------------------------------------------ dropping nothing is enough

  // What the middle release must not drop for a comparison to chain through it:
  // whatever the first and the last both declare.
  ghost predicate PropertyBridged(a: Object, b: Object, c: Object) {
    && (TypeName(a) != "" && TypeName(c) != "" ==> TypeName(b) != "")
    && (EnumOf(a).Some? && EnumOf(c).Some? && EnumOf(c).value != [] ==>
        EnumOf(b).Some? && EnumOf(b).value != [])
  }

  ghost predicate SchemaBridged(
      first: Document, middle: Document, last: Document,
      a: Option<Object>, b: Option<Object>, c: Option<Object>)
  {
    a.Some? && c.Some? ==>
      && b.Some?
      && var p, q, r := Properties(first, a.value), Properties(middle, b.value), Properties(last, c.value);
         forall name | name in p && name in r :: name in q && PropertyBridged(p[name], q[name], r[name])
  }

  ghost predicate OperationBridged(
      first: Document, middle: Document, last: Document, a: Object, b: Object, c: Object)
  {
    && SchemaBridged(first, middle, last, ResolvedBody(first, a), ResolvedBody(middle, b), ResolvedBody(last, c))
    && var s, t, u := MapAt(a, "responses"), MapAt(b, "responses"), MapAt(c, "responses");
       (s.Some? && u.Some? ==> t.Some?) &&
       (s.Some? && t.Some? && u.Some? ==>
          forall status | MapAt(s.value, status).Some? && MapAt(t.value, status).Some? && MapAt(u.value, status).Some? ::
            SchemaBridged(first, middle, last, ResolvedBody(first, MapAt(s.value, status).value),
              ResolvedBody(middle, MapAt(t.value, status).value), ResolvedBody(last, MapAt(u.value, status).value)))
  }

  ghost predicate Bridged(first: Document, middle: Document, last: Document) {
    forall path, verb |
      && path in Paths(first) && path in Paths(middle) && path in Paths(last) && verb in METHODS
      && MapAt(Paths(first)[path], verb).Some? && MapAt(Paths(middle)[path], verb).Some?
      && MapAt(Paths(last)[path], verb).Some? ::
      OperationBridged(first, middle, last, MapAt(Paths(first)[path], verb).value,
        MapAt(Paths(middle)[path], verb).value, MapAt(Paths(last)[path], verb).value)
  }

  lemma BridgedOperationCarries(first: Document, middle: Document, last: Document, a: Object, b: Object, c: Object)
    requires OperationBridged(first, middle, last, a, b, c)
    ensures OperationCarries(first, middle, last, a, b, c)
  {
    var s, t, u := MapAt(a, "responses"), MapAt(b, "responses"), MapAt(c, "responses");
    if s.Some? && t.Some? && u.Some? {
      forall status | status in s.value ensures StatusCarries(first, middle, last, s.value, t.value, u.value, status) {}
    }
  }

  lemma BridgedCarries(first: Document, middle: Document, last: Document, path: string, verb: string)
    requires Bridged(first, middle, last) && verb in METHODS
    ensures VerbCarries(first, middle, last, path, verb)
  {
    if path in Paths(first) && path in Paths(middle) && path in Paths(last) {
      var a, b, c := MapAt(Paths(first)[path], verb), MapAt(Paths(middle)[path], verb), MapAt(Paths(last)[path], verb);
      if a.Some? && b.Some? && c.Some? {
        assert OperationBridged(first, middle, last, a.value, b.value, c.value);
        BridgedOperationCarries(first, middle, last, a.value, b.value, c.value);
      }
    }
  }

  // A middle release that drops nothing both ends declare is always passed over.
  lemma SilenceChains(first: Document, middle: Document, last: Document)
    requires AllBreaks(first, middle) == multiset{} && AllBreaks(middle, last) == multiset{}
    requires Bridged(first, middle, last)
    ensures AllBreaks(first, last) == multiset{}
  {
    forall path, verb | verb in METHODS ensures VerbCarries(first, middle, last, path, verb) {
      BridgedCarries(first, middle, last, path, verb);
    }
    SilenceChainsExactlyWhen(first, middle, last);
  }

  // --------------------------------------------------- what breaks a chain

  // Two releases that pass, whose ends do not: the middle one drops a type, and
  // the last one brings back another.
  lemma DroppedTypeBreaksTheChain(from: string, to: string)
    requires from != "" && to != "" && from != to
    ensures var first, middle, last := Hosting(Taking(OneProperty(Typed(from)))),
        Hosting(Taking(OneProperty(map[]))), Hosting(Taking(OneProperty(Typed(to))));
      && AllBreaks(first, middle) == multiset{} && AllBreaks(middle, last) == multiset{}
      && AllBreaks(first, last) != multiset{}
  {
    TypedReads(from);
    TypedReads(to);
    TakingHolds(Typed(from), map[]);
    TakingHolds(map[], Typed(to));
    TakingHolds(Typed(from), Typed(to));
  }
}
