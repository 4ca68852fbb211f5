/**
 * tools/eventgen/compatibility.go: the event contract gate, and what a chain of
 * releases that each pass it keeps for a consumer.
 */
module EventGate {
  import opened Wrappers
  import opened Numerals
  import opened Quoting
  import opened Reports
  import opened Sums
  import Ordering

  // A payload field, as far as the gate reads it.
  datatype Field = Field(kind: string, permitted: seq<string>)

  datatype Event = Event(schemaVersion: string, fields: map<string, Field>)

  type Catalogue = map<string, Event>

  datatype Change =
    | EventRemoved
    | FieldRemoved(name: string)
    | FieldRetyped(name: string, from: string, to: string)
    | ValueDropped(name: string, value: string)
    | AddedUnannounced(names: seq<string>, version: string)

  datatype Break = Break(eventType: string, change: Change)

  // ------------------------------------------------------------- versions

  // What the suffix pattern matches: a base without line breaks, ".v", digits.
  ghost predicate Matches(eventType: string, base: string, digits: string) {
    eventType == base + ".v" + digits && digits != "" && AllDigits(digits) && '\n' !in base
  }

  function TrailingDigits(s: string): (n: nat)
    ensures n <= |s|
    ensures forall i | |s| - n <= i < |s| :: IsDigit(s[i])
    ensures n < |s| ==> !IsDigit(s[|s| - n - 1])
  {
    if s == "" || !IsDigit(s[|s| - 1]) then 0 else TrailingDigits(s[..|s| - 1]) + 1
  }

  function Split(eventType: string): (r: Option<(string, string)>)
    ensures r.Some? ==> r.value.1 != "" && AllDigits(r.value.1)
  {
    var n := TrailingDigits(eventType);
    var at := |eventType| - n;
    if n == 0 || at < 2 || eventType[at - 2..at] != ".v" || '\n' in eventType[..at - 2] then None
    else Some((eventType[..at - 2], eventType[at..]))
  }

  // The pattern can match in one way only.
  lemma SplitIsTheMatch(eventType: string, base: string, digits: string)
    ensures Split(eventType) == Some((base, digits)) <==> Matches(eventType, base, digits)
  {
    var n := TrailingDigits(eventType);
    var at := |eventType| - n;
    if Split(eventType) == Some((base, digits)) {
      assert eventType == eventType[..at - 2] + eventType[at - 2..at] + eventType[at..];
    }
    if Matches(eventType, base, digits) {
      assert eventType[|base| + 2..] == digits;
      assert eventType[|base| + 1] == 'v' && eventType[|base|] == '.';
      forall i | |base| + 2 <= i < |eventType| ensures IsDigit(eventType[i]) {
        assert eventType[i] == digits[i - |base| - 2];
      }
      assert at == |base| + 2;
      assert eventType[at - 2..at] == ".v" && eventType[..at - 2] == base;
    }
  }

  const MAX_INT := 0x7fff_ffff_ffff_ffff

  // strconv.Atoi on digits: an error when an int cannot hold them.
  function Atoi(digits: string): Option<nat>
    requires AllDigits(digits)
  {
    if Decimal(digits) <= MAX_INT then Some(Decimal(digits)) else None
  }

  // The base and contract version of an event type that has one.
  function VersionOf(eventType: string): Option<(string, nat)> {
    match Split(eventType)
    case None => None
    case Some((base, digits)) =>
      if Atoi(digits).None? then None else Some((base, Atoi(digits).value))
  }

  // A strictly later version of the same base.
  predicate Succeeds(later: string, earlier: string) {
    && VersionOf(later).Some? && VersionOf(earlier).Some?
    && VersionOf(later).value.0 == VersionOf(earlier).value.0
    && VersionOf(later).value.1 > VersionOf(earlier).value.1
  }

  method HasSuccessor(eventType: string, catalogue: Catalogue) returns (candidate: string, found: bool)
    ensures found <==> exists other :: other in catalogue && Succeeds(other, eventType)
    ensures found ==> candidate in catalogue && Succeeds(candidate, eventType)
  {
    var retired := Split(eventType);
    if retired.None? { return "", false; }
    var version := Atoi(retired.value.1);
    if version.None? { return "", false; }
    var todo := catalogue.Keys;
    while todo != {}
      invariant todo <= catalogue.Keys
      invariant forall other | other in catalogue && other !in todo :: !Succeeds(other, eventType)
    {
      candidate :| candidate in todo;
      todo := todo - {candidate};
      var other := Split(candidate);
      if other.None? || other.value.0 != retired.value.0 { continue; }
      var n := Atoi(other.value.1);
      if n.Some? && n.value > version.value { return candidate, true; }
    }
    return "", false;
  }

  // ------------------------------------------------------------- payloads

  ghost function Dropped(eventType: string, name: string): string -> Break {
    value => Break(eventType, ValueDropped(name, value))
  }

  ghost function FieldBreaks(eventType: string, name: string, was: Field, now: Field): multiset<Break> {
    (if was.kind != now.kind
     then multiset{Break(eventType, FieldRetyped(name, was.kind, now.kind))} else multiset{})
    + multiset(Ordering.Map(Dropped(eventType, name), Ordering.Missing(was.permitted, now.permitted)))
  }

  ghost function FieldPart(
      eventType: string, before: map<string, Field>, after: map<string, Field>): string -> multiset<Break> {
    name =>
      if name !in before then multiset{}
      else if name !in after then multiset{Break(eventType, FieldRemoved(name))}
      else FieldBreaks(eventType, name, before[name], after[name])
  }

  function Added(before: map<string, Field>, after: map<string, Field>): set<string> {
    after.Keys - before.Keys
  }

  ghost function AdditionBreaks(eventType: string, before: Event, after: Event): multiset<Break> {
    var added := Added(before.fields, after.fields);
    if added != {} && before.schemaVersion == after.schemaVersion
    then multiset{Break(eventType, AddedUnannounced(Ordering.InOrder(added), before.schemaVersion))}
    else multiset{}
  }

  ghost function PayloadBreaks(eventType: string, before: Event, after: Event): multiset<Break> {
    Sum(before.fields.Keys, FieldPart(eventType, before.fields, after.fields))
    + AdditionBreaks(eventType, before, after)
  }

  method ComparePayloads(eventType: string, before: Event, after: Event) returns (breaks: seq<Break>)
    ensures multiset(breaks) == PayloadBreaks(eventType, before, after)
  {
    breaks := CompareFields(eventType, before.fields, after.fields);
    var added := AddedFields(before.fields, after.fields);
    if |added| > 0 && before.schemaVersion == after.schemaVersion {
      breaks := breaks + [Break(eventType, AddedUnannounced(added, before.schemaVersion))];
    }
  }

  method CompareFields(eventType: string, before: map<string, Field>, after: map<string, Field>)
    returns (breaks: seq<Break>)
    ensures multiset(breaks) == Sum(before.Keys, FieldPart(eventType, before, after))
  {
    breaks := [];
    ghost var part := FieldPart(eventType, before, after);
    var todo := before.Keys;
    while todo != {}
      invariant todo <= before.Keys
      invariant multiset(breaks) == Sum(before.Keys - todo, part)
    {
      var name :| name in todo;
      ghost var done := before.Keys - todo;
      todo := todo - {name};
      assert before.Keys - todo == done + {name};
      SumAdd(done, part, name);
      if name !in after {
        breaks := breaks + [Break(eventType, FieldRemoved(name))];
        continue;
      }
      var reported := CompareField(eventType, name, before[name], after[name]);
      breaks := breaks + reported;
    }
    assert before.Keys - todo == before.Keys;
  }

  method CompareField(eventType: string, name: string, was: Field, now: Field) returns (breaks: seq<Break>)
    ensures multiset(breaks) == FieldBreaks(eventType, name, was, now)
  {
    breaks := CompareValues(eventType, name, was.permitted, now.permitted);
    if was.kind != now.kind {
      breaks := [Break(eventType, FieldRetyped(name, was.kind, now.kind))] + breaks;
    }
  }

  method CompareValues(eventType: string, name: string, was: seq<string>, now: seq<string>)
    returns (breaks: seq<Break>)
    ensures breaks == Ordering.Map(Dropped(eventType, name), Ordering.Missing(was, now))
  {
    breaks := [];
    ghost var drop := Dropped(eventType, name);
    for i := 0 to |was|
      invariant breaks == Ordering.Map(drop, Ordering.Missing(was[..i], now))
    {
      assert was[..i + 1] == was[..i] + [was[i]];
      Ordering.MissingAppend(was[..i], was[i], now);
      if was[i] !in now {
        Ordering.MapSnoc(drop, Ordering.Missing(was[..i], now), was[i]);
        breaks := breaks + [Break(eventType, ValueDropped(name, was[i]))];
      }
    }
    assert was[..|was|] == was;
  }

  method AddedFields(before: map<string, Field>, after: map<string, Field>) returns (added: seq<string>)
    ensures added == Ordering.InOrder(Added(before, after))
    ensures added == [] <==> Added(before, after) == {}
  {
    var names := AddedNames(before, after);
    added := Ordering.SortedNames(names);
    assert |multiset(added)| == |added| && |multiset(names)| == |names|;
  }

  method AddedNames(before: map<string, Field>, after: map<string, Field>) returns (names: set<string>)
    ensures names == Added(before, after)
  {
    names := {};
    var todo := after.Keys;
    while todo != {}
      invariant todo <= after.Keys
      invariant names == (after.Keys - todo) - before.Keys
    {
      var name :| name in todo;
      if name !in before { names := names + {name}; }
      todo := todo - {name};
    }
  }

  // ------------------------------------------------------------- the gate

  ghost function EventBreaks(previous: Catalogue, current: Catalogue, eventType: string): multiset<Break> {
    if eventType !in previous then multiset{}
    else if eventType in current then PayloadBreaks(eventType, previous[eventType], current[eventType])
    else if exists other :: other in current && Succeeds(other, eventType) then multiset{}
    else multiset{Break(eventType, EventRemoved)}
  }

  ghost function EventPart(previous: Catalogue, current: Catalogue): string -> multiset<Break> {
    eventType => EventBreaks(previous, current, eventType)
  }

  ghost function AllBreaks(previous: Catalogue, current: Catalogue): multiset<Break> {
    Sum(previous.Keys, EventPart(previous, current))
  }

  method Compare(previous: Catalogue, current: Catalogue, printable: char -> bool) returns (breaks: seq<Break>)
    ensures multiset(breaks) == AllBreaks(previous, current)
    ensures Ordering.SortedBy(Before(Printer(printable)), breaks)
  {
    breaks := [];
    ghost var part := EventPart(previous, current);
    var todo := previous.Keys;
    while todo != {}
      invariant todo <= previous.Keys
      invariant multiset(breaks) == Sum(previous.Keys - todo, part)
    {
      var eventType :| eventType in todo;
      ghost var done := previous.Keys - todo;
      todo := todo - {eventType};
      assert previous.Keys - todo == done + {eventType};
      SumAdd(done, part, eventType);
      if eventType !in current {
        var _, ok := HasSuccessor(eventType, current);
        if !ok {
          breaks := breaks + [Break(eventType, EventRemoved)];
        }
        continue;
      }
      var reported := ComparePayloads(eventType, previous[eventType], current[eventType]);
      breaks := breaks + reported;
    }
    assert previous.Keys - todo == previous.Keys;
    BeforeIsStrictWeak(Printer(printable));
    breaks := Ordering.Sort(Before(Printer(printable)), breaks);
  }

  // ------------------------------------------------------------- the words

  datatype Advice = KeepEmitting | LeaveInPlace | AddADifferentField | KeepTheValue | RaiseTheVersion

  function Remedy(change: Change): Advice {
    match change
    case EventRemoved => KeepEmitting
    case FieldRemoved(_) => LeaveInPlace
    case FieldRetyped(_, _, _) => AddADifferentField
    case ValueDropped(_, _) => KeepTheValue
    case AddedUnannounced(_, _) => RaiseTheVersion
  }

  function Joined(names: seq<string>): string {
    if names == [] then "" else if |names| == 1 then names[0] else names[0] + ", " + Joined(names[1..])
  }

  // What a reason says after the field it quotes.
  function Ending(change: Change, printable: char -> bool): string
    requires change.FieldRemoved? || change.FieldRetyped? || change.ValueDropped?
  {
    match change
    case FieldRemoved(_) => " was removed"
    case FieldRetyped(_, from, to) =>
      " changed type from " + (Quote(from, printable) + " to " + Quote(to, printable))
    case ValueDropped(_, value) => " no longer permits the value " + Quote(value, printable)
  }

  function Reason(change: Change, printable: char -> bool): string {
    match change
    case EventRemoved => "the event type was removed" + " and no later version replaces it"
    case AddedUnannounced(names, version) =>
      "payload field(s) " + (Joined(names)
        + " were added without raising the schema version above " + Quote(version, printable))
    case _ => "payload field " + (Quote(change.name, printable) + Ending(change, printable))
  }

  function Printer(printable: char -> bool): Break -> Line<Advice> {
    (b: Break) => Line(b.eventType, Reason(b.change, printable), Remedy(b.change))
  }

  lemma ReasonOpens(change: Change, printable: char -> bool)
    ensures |Reason(change, printable)| > 13
    ensures change.EventRemoved? <==> Reason(change, printable)[0] == 't'
    ensures !change.EventRemoved? ==>
      (change.AddedUnannounced? <==> Reason(change, printable)[13] == '(')
  {
    match change
    case EventRemoved => assert "the event type was removed"[0] == 't';
    case AddedUnannounced(names, version) =>
      assert "payload field(s) "[0] == 'p' && "payload field(s) "[13] == '(';
    case _ => assert "payload field "[0] == 'p' && "payload field "[13] == ' ';
  }

  lemma EndingTells(change: Change, printable: char -> bool)
    requires change.FieldRemoved? || change.FieldRetyped? || change.ValueDropped?
    ensures |Ending(change, printable)| > 1
    ensures Ending(change, printable)[1] == match change
      case FieldRemoved(_) => 'w'
      case FieldRetyped(_, _, _) => 'c'
      case _ => 'n'
  {
    match change
    case FieldRemoved(_) =>
    case FieldRetyped(_, from, to) => assert " changed type from "[1] == 'c';
    case ValueDropped(_, value) => assert " no longer permits the value "[1] == 'n';
  }

  lemma ReasonFixesRemedy(x: Change, y: Change, printable: char -> bool)
    requires Reason(x, printable) == Reason(y, printable)
    ensures Remedy(x) == Remedy(y)
  {
    ReasonOpens(x, printable);
    ReasonOpens(y, printable);
    if !x.EventRemoved? && !x.AddedUnannounced? {
      var head := "payload field ";
      var s, t := Quote(x.name, printable) + Ending(x, printable), Quote(y.name, printable) + Ending(y, printable);
      assert (head + s)[|head|..] == s && (head + t)[|head|..] == t;
      QuoteSelfDelimiting(x.name, Ending(x, printable), y.name, Ending(y, printable), printable);
      EndingTells(x, printable);
      EndingTells(y, printable);
    }
  }

  // The report is one fixed sequence for every map iteration order.
  lemma ReportIsDeterministic(
      previous: Catalogue, current: Catalogue, printable: char -> bool, first: seq<Break>, second: seq<Break>)
    requires multiset(first) == AllBreaks(previous, current) == multiset(second)
    requires Ordering.SortedBy(Before(Printer(printable)), first)
    requires Ordering.SortedBy(Before(Printer(printable)), second)
    ensures Ordering.Map(Printer(printable), first) == Ordering.Map(Printer(printable), second)
  {
    forall x, y | x in first && y in first && Reason(x.change, printable) == Reason(y.change, printable)
      ensures Remedy(x.change) == Remedy(y.change)
    {
      ReasonFixesRemedy(x.change, y.change, printable);
    }
    PrintsOneWay(Printer(printable), first, second);
  }
}
