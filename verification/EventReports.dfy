/**
 * What a report of the event contract gate says: each break it lists is there in
 * the two catalogues, and each that is there is listed.
 */
module EventReports {
  import opened EventGate
  import opened Quoting
  import opened Sums
  import Ordering

  // Between two versions of one payload field.
  ghost predicate FieldTells(was: Field, now: Field, name: string, change: Change) {
    match change
    case FieldRetyped(n, from, to) => n == name && was.kind == from && now.kind == to && from != to
    case ValueDropped(n, value) => n == name && value in was.permitted && value !in now.permitted
    case _ => false
  }

  // The fields gained, each once and in order.
  ghost predicate ListsGained(before: map<string, Field>, after: map<string, Field>, names: seq<string>) {
    names != [] && (forall name :: name in names <==> name in after && name !in before) && Ordering.Increasing(names)
  }

  // Gained under a version that stayed.
  ghost predicate AdditionTells(before: Event, after: Event, change: Change) {
    && change.AddedUnannounced? && before.schemaVersion == after.schemaVersion == change.version
    && ListsGained(before.fields, after.fields, change.names)
  }

  ghost predicate PayloadTells(before: Event, after: Event, change: Change) {
    || (change.FieldRemoved? && change.name in before.fields && change.name !in after.fields)
    || (exists name :: (&& name in before.fields && name in after.fields
                        && FieldTells(before.fields[name], after.fields[name], name, change)))
    || AdditionTells(before, after, change)
  }

  ghost predicate Tells(previous: Catalogue, current: Catalogue, b: Break) {
    && b.eventType in previous
    && if b.eventType in current then PayloadTells(previous[b.eventType], current[b.eventType], b.change)
       else b.change == EventRemoved && forall other | other in current :: !Succeeds(other, b.eventType)
  }

  lemma FieldReports(eventType: string, name: string, was: Field, now: Field, b: Break)
    ensures b in FieldBreaks(eventType, name, was, now) <==>
      b.eventType == eventType && FieldTells(was, now, name, b.change)
  {
    var dropped := multiset(Ordering.Map(Dropped(eventType, name), Ordering.Missing(was.permitted, now.permitted)));
    InEither(Retyping(eventType, name, was.kind, now.kind), dropped, b);
    DropsReport(eventType, name, was.permitted, now.permitted, b);
    RetypingReports(eventType, name, was.kind, now.kind, b);
  }

  ghost function Retyping(eventType: string, name: string, was: string, now: string): multiset<Break> {
    if was != now then multiset{Break(eventType, FieldRetyped(name, was, now))} else multiset{}
  }

  lemma RetypingReports(eventType: string, name: string, was: string, now: string, b: Break)
    ensures b in Retyping(eventType, name, was, now) <==>
      b.change.FieldRetyped? && b == Break(eventType, FieldRetyped(name, was, now)) && was != now
  {
  }

  lemma DropsReport(eventType: string, name: string, was: seq<string>, now: seq<string>, b: Break)
    ensures b in multiset(Ordering.Map(Dropped(eventType, name), Ordering.Missing(was, now))) <==>
      (b.change.ValueDropped? && b == Break(eventType, ValueDropped(name, b.change.value))
       && b.change.value in was && b.change.value !in now)
  {
    var missing := Ordering.Missing(was, now);
    var dropped := Ordering.Map(Dropped(eventType, name), missing);
    assert b in multiset(dropped) <==> b in dropped;
    if b in dropped {
      var i :| 0 <= i < |dropped| && dropped[i] == b;
      assert missing[i] in missing;
      Ordering.MissingMember(was, now, missing[i]);
    }
    if b.change.ValueDropped? && b == Break(eventType, ValueDropped(name, b.change.value)) {
      Ordering.MissingMember(was, now, b.change.value);
      if i :| 0 <= i < |missing| && missing[i] == b.change.value {
        assert dropped[i] == b;
      }
    }
  }

  lemma FieldsReport(eventType: string, before: map<string, Field>, after: map<string, Field>, b: Break)
    ensures b in Sum(before.Keys, FieldPart(eventType, before, after)) <==>
      && b.eventType == eventType
      && (|| (b.change.FieldRemoved? && b.change.name in before && b.change.name !in after)
          || exists name :: name in before && name in after && FieldTells(before[name], after[name], name, b.change))
  {
    var part := FieldPart(eventType, before, after);
    SumMember(before.Keys, part, b);
    forall name | name in before && name in after
      ensures b in part(name) <==> b.eventType == eventType && FieldTells(before[name], after[name], name, b.change)
    {
      FieldReports(eventType, name, before[name], after[name], b);
    }
    if b.change.FieldRemoved? && b.change.name in before && b.change.name !in after && b.eventType == eventType {
      assert b in part(b.change.name);
    }
  }

  lemma AdditionReports(eventType: string, before: Event, after: Event, b: Break)
    ensures b in AdditionBreaks(eventType, before, after) <==>
      b.eventType == eventType && AdditionTells(before, after, b.change)
  {
    var names := Ordering.InOrder(Added(before.fields, after.fields));
    if b.change.AddedUnannounced? { GainedAreListed(before.fields, after.fields, b.change.names); }
    AdditionIs(eventType, Added(before.fields, after.fields) != {}, names, before.schemaVersion, after.schemaVersion, b);
  }

  lemma AdditionIs(eventType: string, some: bool, names: seq<string>, was: string, now: string, b: Break)
    ensures b in (if some && was == now then multiset{Break(eventType, AddedUnannounced(names, was))} else multiset{})
      <==> (&& b.eventType == eventType && b.change.AddedUnannounced? && was == now == b.change.version
            && some && b.change.names == names)
  {
  }

  lemma GainedAreListed(before: map<string, Field>, after: map<string, Field>, names: seq<string>)
    ensures ListsGained(before, after, names) <==>
      Added(before, after) != {} && names == Ordering.InOrder(Added(before, after))
  {
    Ordering.InOrderExactlyWhen(Added(before, after), names);
    EmptyAlike(Added(before, after), Ordering.InOrder(Added(before, after)));
    forall name ensures name in Added(before, after) <==> name in after && name !in before {}
  }

  lemma EmptyAlike(all: set<string>, names: seq<string>)
    requires names == Ordering.InOrder(all)
    ensures all == {} <==> names == []
  {
    assert |multiset(names)| == |names| && |multiset(all)| == |all|;
  }

  lemma PayloadReports(eventType: string, before: Event, after: Event, b: Break)
    ensures b in PayloadBreaks(eventType, before, after) <==>
      b.eventType == eventType && PayloadTells(before, after, b.change)
  {
    FieldsReport(eventType, before.fields, after.fields, b);
    AdditionReports(eventType, before, after, b);
  }

  // A break is in the report exactly when the two catalogues tell it.
  lemma ReportedExactlyWhenTold(previous: Catalogue, current: Catalogue, b: Break)
    ensures b in AllBreaks(previous, current) <==> Tells(previous, current, b)
  {
    var part := EventPart(previous, current);
    SumMember(previous.Keys, part, b);
    forall eventType | eventType in previous
      ensures b in part(eventType) <==> b.eventType == eventType && Tells(previous, current, b)
    {
      if eventType in current {
        PayloadReports(eventType, previous[eventType], current[eventType], b);
      }
    }
  }

  // ------------------------------------------------------------- in words

  // The words of a report: where, the reason, and what to do about it.
  lemma ReasonsAreWorded(name: string, from: string, to: string, value: string, printable: char -> bool)
    ensures Reason(EventRemoved, printable) == "the event type was removed" + " and no later version replaces it"
    ensures Reason(FieldRemoved(name), printable) == "payload field " + (Quote(name, printable) + " was removed")
    ensures Reason(FieldRetyped(name, from, to), printable) == "payload field "
      + (Quote(name, printable) + (" changed type from " + (Quote(from, printable) + " to " + Quote(to, printable))))
    ensures Reason(ValueDropped(name, value), printable) == "payload field "
      + (Quote(name, printable) + (" no longer permits the value " + Quote(value, printable)))
  {
  }

  lemma AdditionsAreWorded(names: seq<string>, name: string, version: string, printable: char -> bool)
    ensures Joined([]) == "" && Joined([name]) == name
    ensures names != [] ==> Joined([name] + names) == name + ", " + Joined(names)
    ensures Reason(AddedUnannounced(names, version), printable) == "payload field(s) "
      + (Joined(names) + " were added without raising the schema version above " + Quote(version, printable))
  {
    assert ([name] + names)[1..] == names;
  }

  // Which remedy is printed with it.
  lemma AdviceFitsTheChange(name: string, from: string, to: string, value: string, names: seq<string>)
    ensures Remedy(EventRemoved) == KeepEmitting && Remedy(FieldRemoved(name)) == LeaveInPlace
    ensures Remedy(FieldRetyped(name, from, to)) == AddADifferentField && Remedy(ValueDropped(name, value)) == KeepTheValue
    ensures Remedy(AddedUnannounced(names, value)) == RaiseTheVersion
  {
  }
}
