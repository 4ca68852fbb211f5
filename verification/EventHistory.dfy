/**
 * What a consumer can count on along a chain of releases that each pass the
 * event contract gate.
 */
module EventHistory {
  import opened EventGate
  import opened Sums
  import Ordering

  // No field is lost or retyped and no listed value is withdrawn. A field without a
  // list counts as one with an empty list, so gaining a list is growth here, though
  // fewer values are then permitted (GainedListPasses).
  ghost predicate FieldsGrow(before: map<string, Field>, after: map<string, Field>) {
    forall name | name in before ::
      && name in after
      && before[name].kind == after[name].kind
      && forall value | value in before[name].permitted :: value in after[name].permitted
  }

  ghost predicate AdditionsAnnounced(before: Event, after: Event) {
    before.schemaVersion == after.schemaVersion ==> after.fields.Keys <= before.fields.Keys
  }

  ghost predicate Kept(eventType: string, current: Catalogue) {
    eventType in current || exists other :: other in current && Succeeds(other, eventType)
  }

  ghost predicate EventHolds(previous: Catalogue, current: Catalogue, eventType: string)
    requires eventType in previous
  {
    && Kept(eventType, current)
    && (eventType in current ==>
        && FieldsGrow(previous[eventType].fields, current[eventType].fields)
        && AdditionsAnnounced(previous[eventType], current[eventType]))
  }

  ghost predicate Holds(previous: Catalogue, current: Catalogue) {
    forall eventType | eventType in previous :: EventHolds(previous, current, eventType)
  }

  lemma FieldSilent(eventType: string, name: string, was: Field, now: Field)
    ensures FieldBreaks(eventType, name, was, now) == multiset{} <==>
      was.kind == now.kind && forall value | value in was.permitted :: value in now.permitted
  {
    var missing := Ordering.Missing(was.permitted, now.permitted);
    var breaks := Ordering.Map(Dropped(eventType, name), missing);
    forall value ensures value in missing <==> value in was.permitted && value !in now.permitted {
      Ordering.MissingMember(was.permitted, now.permitted, value);
    }
    if missing != [] {
      assert missing[0] in missing && breaks[0] in multiset(breaks);
      assert breaks[0] in FieldBreaks(eventType, name, was, now);
    }
    if was.kind != now.kind {
      assert Break(eventType, FieldRetyped(name, was.kind, now.kind)) in FieldBreaks(eventType, name, was, now);
    }
  }

  lemma FieldsSilent(eventType: string, before: map<string, Field>, after: map<string, Field>)
    ensures Sum(before.Keys, FieldPart(eventType, before, after)) == multiset{} <==> FieldsGrow(before, after)
  {
    var part := FieldPart(eventType, before, after);
    SumEmpty(before.Keys, part);
    forall name | name in before && name in after
      ensures part(name) == multiset{} <==>
        && before[name].kind == after[name].kind
        && forall value | value in before[name].permitted :: value in after[name].permitted
    {
      FieldSilent(eventType, name, before[name], after[name]);
    }
  }

  lemma PayloadSilent(eventType: string, before: Event, after: Event)
    ensures PayloadBreaks(eventType, before, after) == multiset{}
      <==> FieldsGrow(before.fields, after.fields) && AdditionsAnnounced(before, after)
  {
    FieldsSilent(eventType, before.fields, after.fields);
    var a, b := Sum(before.fields.Keys, FieldPart(eventType, before.fields, after.fields)),
                AdditionBreaks(eventType, before, after);
    assert Added(before.fields, after.fields) == {} <==> after.fields.Keys <= before.fields.Keys by {
      if Added(before.fields, after.fields) == {} {
        forall name | name in after.fields ensures name in before.fields {
          assert name !in Added(before.fields, after.fields);
        }
      }
    }
    if a + b == multiset{} {
      forall x ensures a[x] == 0 && b[x] == 0 { assert (a + b)[x] == 0; }
    }
  }

  lemma EventSilent(previous: Catalogue, current: Catalogue, eventType: string)
    requires eventType in previous
    ensures EventBreaks(previous, current, eventType) == multiset{} <==> EventHolds(previous, current, eventType)
  {
    if eventType in current {
      PayloadSilent(eventType, previous[eventType], current[eventType]);
    }
  }

  // The gate reports nothing exactly when every event is kept or succeeded,
  // and every payload present on both sides only grows, announcing additions.
  lemma SilentExactlyWhenItHolds(previous: Catalogue, current: Catalogue)
    ensures AllBreaks(previous, current) == multiset{} <==> Holds(previous, current)
  {
    SumEmpty(previous.Keys, EventPart(previous, current));
    forall eventType | eventType in previous
      ensures EventPart(previous, current)(eventType) == multiset{} <==> EventHolds(previous, current, eventType)
    {
      EventSilent(previous, current, eventType);
    }
  }

  // A catalogue compared with itself is never reported.
  lemma SelfComparisonIsSilent(c: Catalogue)
    ensures AllBreaks(c, c) == multiset{}
  {
    SilentExactlyWhenItHolds(c, c);
  }

  // ---------------------------------------------------------------- chains

  // Releases that each pass the gate against the one before.
  ghost predicate Chain(releases: seq<Catalogue>) {
    && releases != []
    && forall i | 0 <= i < |releases| - 1 :: AllBreaks(releases[i], releases[i + 1]) == multiset{}
  }

  function Last(releases: seq<Catalogue>): Catalogue
    requires releases != []
  {
    releases[|releases| - 1]
  }

  // However long the chain, every event type a consumer started with is still
  // there, or a strictly later version of the same base is.
  lemma {:induction false} EveryEventSurvivesOrIsSucceeded(releases: seq<Catalogue>, eventType: string)
    requires Chain(releases) && eventType in releases[0]
    ensures Kept(eventType, Last(releases))
    decreases |releases|
  {
    if |releases| > 1 {
      SilentExactlyWhenItHolds(releases[0], releases[1]);
      assert Chain(releases[1..]) && Last(releases[1..]) == Last(releases);
      if eventType in releases[1] {
        EveryEventSurvivesOrIsSucceeded(releases[1..], eventType);
      } else {
        var next :| next in releases[1] && Succeeds(next, eventType);
        EveryEventSurvivesOrIsSucceeded(releases[1..], next);
        if next !in Last(releases) {
          var later :| later in Last(releases) && Succeeds(later, next);
          assert Succeeds(later, eventType);
        }
      }
    }
  }

  ghost predicate PresentThroughout(releases: seq<Catalogue>, eventType: string) {
    forall i | 0 <= i < |releases| :: eventType in releases[i]
  }

  // While an event type stays, no field disappears or changes type and no
  // permitted value is withdrawn, however many releases go by.
  lemma {:induction false} PayloadsOnlyGrow(releases: seq<Catalogue>, eventType: string)
    requires Chain(releases) && PresentThroughout(releases, eventType)
    ensures FieldsGrow(releases[0][eventType].fields, Last(releases)[eventType].fields)
    decreases |releases|
  {
    if |releases| > 1 {
      SilentExactlyWhenItHolds(releases[0], releases[1]);
      assert Chain(releases[1..]) && PresentThroughout(releases[1..], eventType);
      assert Last(releases[1..]) == Last(releases);
      PayloadsOnlyGrow(releases[1..], eventType);
    }
  }

  // No schema version is used again once it has been left.
  ghost predicate VersionsNotReused(releases: seq<Catalogue>, eventType: string)
    requires PresentThroughout(releases, eventType)
  {
    forall i, j, k | 0 <= i <= j <= k < |releases|
      && releases[i][eventType].schemaVersion == releases[k][eventType].schemaVersion ::
      releases[j][eventType].schemaVersion == releases[i][eventType].schemaVersion
  }

  lemma {:induction false} SameVersionSameFields(releases: seq<Catalogue>, eventType: string)
    requires Chain(releases) && PresentThroughout(releases, eventType)
    requires forall i | 0 <= i < |releases| ::
      releases[i][eventType].schemaVersion == releases[0][eventType].schemaVersion
    ensures Last(releases)[eventType].fields.Keys <= releases[0][eventType].fields.Keys
    decreases |releases|
  {
    if |releases| > 1 {
      AdditionIsAnnounced(releases, eventType);
      var rest := releases[1..];
      assert Chain(rest) && PresentThroughout(rest, eventType) && Last(rest) == Last(releases);
      forall i | 0 <= i < |rest| ensures rest[i][eventType].schemaVersion == rest[0][eventType].schemaVersion {
        assert rest[i] == releases[i + 1];
      }
      SameVersionSameFields(rest, eventType);
    }
  }

  lemma AdditionIsAnnounced(releases: seq<Catalogue>, eventType: string)
    requires Chain(releases) && PresentThroughout(releases, eventType) && |releases| > 1
    ensures AdditionsAnnounced(releases[0][eventType], releases[1][eventType])
  {
    SilentExactlyWhenItHolds(releases[0], releases[1]);
  }

  // The first release compares silently with the last one exactly when equal schema
  // versions mean equal fields: nothing else can go wrong along a chain.
  lemma PayloadComparisonChainsExactlyWhen(releases: seq<Catalogue>, eventType: string)
    requires Chain(releases) && PresentThroughout(releases, eventType)
    ensures var first, last := releases[0][eventType], Last(releases)[eventType];
      PayloadBreaks(eventType, first, last) == multiset{}
      <==> (first.schemaVersion == last.schemaVersion ==> first.fields.Keys == last.fields.Keys)
  {
    PayloadsOnlyGrow(releases, eventType);
    PayloadSilent(eventType, releases[0][eventType], Last(releases)[eventType]);
  }

  // Which it does when no version is returned to after being left.
  lemma PayloadComparisonChains(releases: seq<Catalogue>, eventType: string)
    requires Chain(releases) && PresentThroughout(releases, eventType)
    requires VersionsNotReused(releases, eventType)
    ensures PayloadBreaks(eventType, releases[0][eventType], Last(releases)[eventType]) == multiset{}
  {
    PayloadsOnlyGrow(releases, eventType);
    PayloadComparisonChainsExactlyWhen(releases, eventType);
    if releases[0][eventType].schemaVersion == Last(releases)[eventType].schemaVersion {
      forall j | 0 <= j < |releases|
        ensures releases[j][eventType].schemaVersion == releases[0][eventType].schemaVersion
      {
        assert 0 <= j <= |releases| - 1;
      }
      SameVersionSameFields(releases, eventType);
    }
  }

  // Reusing a version defeats it: two passing steps add a field and go back,
  // and the direct comparison reports the addition.
  lemma ReusedVersionBreaksTheChain(eventType: string, name: string)
    ensures PayloadBreaks(eventType, Bare(), Grown(name, "1.1")) == multiset{}
    ensures PayloadBreaks(eventType, Grown(name, "1.1"), Grown(name, "1.0")) == multiset{}
    ensures PayloadBreaks(eventType, Bare(), Grown(name, "1.0")) != multiset{}
  {
    assert "1.0" != "1.1" by { assert "1.0"[2] != "1.1"[2]; }
    PayloadSilent(eventType, Bare(), Grown(name, "1.1"));
    PayloadSilent(eventType, Grown(name, "1.1"), Grown(name, "1.0"));
    PayloadSilent(eventType, Bare(), Grown(name, "1.0"));
    assert name in Grown(name, "1.0").fields;
  }

  // A field that permitted anything comes to permit one value, and passes.
  lemma GainedListPasses(eventType: string, name: string, kind: string, value: string, version: string)
    ensures PayloadBreaks(eventType, Event(version, map[name := Field(kind, [])]),
                          Event(version, map[name := Field(kind, [value])])) == multiset{}
  {
    var before, after := Event(version, map[name := Field(kind, [])]), Event(version, map[name := Field(kind, [value])]);
    PayloadSilent(eventType, before, after);
  }

  function Bare(): Event {
    Event("1.0", map[])
  }

  function Grown(name: string, version: string): Event {
    Event(version, map[name := Field("string", [])])
  }
}
