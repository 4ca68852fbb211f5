/**
 * tools/apicompat/compatibility.go: what the HTTP contract gate reports.
 *
 * Each loop is a method, proved against the multiset of breaks the two
 * documents call for. Go visits a map in any order, so a loop here picks its
 * next key freely.
 */
module HttpGate {
  import opened Documents
  import opened Quoting
  import opened Sums
  import opened Reports
  import Ordering

  datatype Change =
    | PathRemoved
    | OperationRemoved
    | NowRequired(name: string)
    | ValueRefused(name: string, value: string)
    | RequestTypeChanged(name: string, from: string, to: string)
    | StatusRemoved(status: string)
    | PropertyRemoved(name: string)
    | NoLongerGuaranteed(name: string)
    | ResponseTypeChanged(name: string, from: string, to: string)

  datatype Break = Break(where: string, change: Change)

  const METHODS := ["get", "put", "post", "delete", "patch", "head", "options"]

  // strings.ToUpper on the method names, which are ASCII.
  function Upper(s: string): (r: string)
    ensures |r| == |s|
  {
    seq(|s|, i requires 0 <= i < |s| =>
      if 'a' <= s[i] <= 'z' then (s[i] as int - 32) as char else s[i])
  }

  function OperationName(verb: string, path: string): string {
    Upper(verb) + " " + path
  }

  function Once(condition: bool, b: Break): multiset<Break> {
    if condition then multiset{b} else multiset{}
  }

  // ------------------------------------------------------------- requests

  // What comparing one property present on both sides reports.
  ghost function PropertyRequestBreaks(
      where: string, name: string, before: Object, after: Object): multiset<Break> {
    multiset(Ordering.Map(Refusal(where, name), RemovedValues(before, after)))
    + Once(TypeChanged(before, after),
           Break(where, RequestTypeChanged(name, TypeName(before), TypeName(after))))
  }

  ghost function Refusal(where: string, name: string): string -> Break {
    value => Break(where, ValueRefused(name, value))
  }

  ghost function RequestPart(
      where: string, before: map<string, Object>, after: map<string, Object>): string -> multiset<Break> {
    name =>
      if name in before && name in after
      then PropertyRequestBreaks(where, name, before[name], after[name])
      else multiset{}
  }

  ghost function NewlyRequired(where: string, names: set<string>): multiset<Break> {
    multiset(set name | name in names :: Break(where, NowRequired(name)))
  }

  ghost function RequestBreaks(
      previous: Document, current: Document, where: string, before: Object, after: Object): multiset<Break>
  {
    match (ResolvedBody(previous, before), ResolvedBody(current, after))
    case (Some(was), Some(now)) =>
      var declared := Properties(previous, was);
      NewlyRequired(where, RequiredNames(now) - RequiredNames(was))
      + Sum(declared.Keys, RequestPart(where, declared, Properties(current, now)))
    case _ => multiset{}
  }

  method CompareRequest(
      previous: Document, current: Document, where: string, before: Object, after: Object)
    returns (breaks: seq<Break>)
    ensures multiset(breaks) == RequestBreaks(previous, current, where, before, after)
  {
    breaks := [];
    var beforeSchema := Resolve(previous, BodySchema(before));
    var afterSchema := Resolve(current, BodySchema(after));
    if beforeSchema.None? || afterSchema.None? { return; }
    var wasRequired := ReadRequiredNames(beforeSchema.value);
    var nowRequired := ReadRequiredNames(afterSchema.value);
    var required := CompareRequired(where, wasRequired, nowRequired);
    var beforeProperties := ReadProperties(previous, beforeSchema.value);
    var narrowed := CompareRequestProperties(current, where, beforeProperties, afterSchema.value);
    breaks := required + narrowed;
  }

  method CompareRequired(where: string, wasRequired: set<string>, nowRequired: set<string>)
    returns (breaks: seq<Break>)
    ensures multiset(breaks) == NewlyRequired(where, nowRequired - wasRequired)
  {
    breaks := [];
    var names := Ordering.SortedNames(nowRequired);
    for i := 0 to |names|
      invariant multiset(breaks) == NewlyRequired(where, FirstNames(names, i) - wasRequired)
    {
      ghost var seen := FirstNames(names, i) - wasRequired;
      FirstNamesGrow(names, i);
      if names[i] !in wasRequired {
        assert FirstNames(names, i + 1) - wasRequired == seen + {names[i]};
        OneMoreRequired(where, seen, names[i]);
        breaks := breaks + [Break(where, NowRequired(names[i]))];
      } else {
        assert FirstNames(names, i + 1) - wasRequired == seen;
      }
    }
    NamesAreTheSet(names, nowRequired);
  }

  method CompareRequestProperties(
      current: Document, where: string, beforeProperties: map<string, Object>, now: Object)
    returns (breaks: seq<Break>)
    ensures multiset(breaks) ==
      Sum(beforeProperties.Keys, RequestPart(where, beforeProperties, Properties(current, now)))
  {
    breaks := [];
    ghost var part := RequestPart(where, beforeProperties, Properties(current, now));
    var todo := beforeProperties.Keys;
    while todo != {}
      invariant todo <= beforeProperties.Keys
      invariant multiset(breaks) == Sum(beforeProperties.Keys - todo, part)
    {
      var name :| name in todo;
      ghost var done := beforeProperties.Keys - todo;
      todo := todo - {name};
      assert beforeProperties.Keys - todo == done + {name};
      SumAdd(done, part, name);
      var afterProperties := ReadProperties(current, now);
      if name !in afterProperties { continue; }
      var reported := ComparePropertyRequest(where, name, beforeProperties[name], afterProperties[name]);
      breaks := breaks + reported;
    }
    assert beforeProperties.Keys - todo == beforeProperties.Keys;
  }

  method ComparePropertyRequest(where: string, name: string, before: Object, after: Object)
    returns (breaks: seq<Break>)
    ensures multiset(breaks) == PropertyRequestBreaks(where, name, before, after)
  {
    var removed := ReadRemovedValues(before, after);
    breaks := [];
    for i := 0 to |removed|
      invariant breaks == Ordering.Map(Refusal(where, name), removed[..i])
    {
      assert removed[..i + 1] == removed[..i] + [removed[i]];
      Ordering.MapSnoc(Refusal(where, name), removed[..i], removed[i]);
      breaks := breaks + [Break(where, ValueRefused(name, removed[i]))];
    }
    assert removed[..|removed|] == removed;
    Ordering.MapPermutes(Refusal(where, name), removed, RemovedValues(before, after));
    if TypeChanged(before, after) {
      breaks := breaks + [Break(where, RequestTypeChanged(name, TypeName(before), TypeName(after)))];
    }
  }

  lemma OneMoreRequired(where: string, seen: set<string>, name: string)
    requires name !in seen
    ensures NewlyRequired(where, seen + {name})
      == NewlyRequired(where, seen) + multiset{Break(where, NowRequired(name))}
  {
    var before := set n | n in seen :: Break(where, NowRequired(n));
    var after := set n | n in seen + {name} :: Break(where, NowRequired(n));
    assert after == before + {Break(where, NowRequired(name))};
  }

  ghost function FirstNames(names: seq<string>, count: nat): set<string>
    requires count <= |names|
  {
    set k | 0 <= k < count :: names[k]
  }

  lemma FirstNamesGrow(names: seq<string>, i: nat)
    requires i < |names|
    requires forall a, b | 0 <= a < b < |names| :: Ordering.StringLess(names[a], names[b])
    ensures names[i] !in FirstNames(names, i)
    ensures FirstNames(names, i + 1) == FirstNames(names, i) + {names[i]}
  {
    if k :| 0 <= k < i && names[k] == names[i] {
      Ordering.StringLessAsymmetric(names[k], names[i]);
    }
  }

  lemma SumNext(names: seq<string>, i: nat, part: string -> multiset<Break>)
    requires i < |names|
    requires forall a, b | 0 <= a < b < |names| :: Ordering.StringLess(names[a], names[b])
    ensures Sum(FirstNames(names, i + 1), part) == Sum(FirstNames(names, i), part) + part(names[i])
  {
    FirstNamesGrow(names, i);
    SumAdd(FirstNames(names, i), part, names[i]);
  }

  lemma NamesAreTheSet(names: seq<string>, all: set<string>)
    requires multiset(names) == multiset(all)
    ensures FirstNames(names, |names|) == all
  {
    forall v ensures v in all <==> v in names {
      assert v in all <==> v in multiset(all);
      assert v in names <==> v in multiset(names);
    }
  }

  // ------------------------------------------------------------ responses

  // What one required name of the old response reports against the new one.
  ghost function GuaranteeBreaks(where: string, name: string, present: bool, required: bool): multiset<Break> {
    if !present then multiset{Break(where, PropertyRemoved(name))}
    else Once(!required, Break(where, NoLongerGuaranteed(name)))
  }

  ghost function GuaranteePart(
      where: string, properties: map<string, Object>, required: set<string>): string -> multiset<Break> {
    name => GuaranteeBreaks(where, name, name in properties, name in required)
  }

  ghost function ResponseTypePart(
      where: string, before: map<string, Object>, after: map<string, Object>): string -> multiset<Break> {
    name =>
      if name in before && name in after
      then Once(TypeChanged(before[name], after[name]),
                Break(where, ResponseTypeChanged(name, TypeName(before[name]), TypeName(after[name]))))
      else multiset{}
  }

  ghost function BodyBreaks(
      previous: Document, current: Document, where: string, was: Object, now: Object): multiset<Break> {
    var before, after := Properties(previous, was), Properties(current, now);
    Sum(RequiredNames(was), GuaranteePart(where, after, RequiredNames(now)))
    + Sum(before.Keys, ResponseTypePart(where, before, after))
  }

  predicate IsSuccess(status: string) {
    status != "" && status[0] == '2'
  }

  ghost function StatusBreaks(
      previous: Document, current: Document, where: string, before: Object, after: Object,
      status: string): multiset<Break>
  {
    if !IsSuccess(status) || MapAt(before, status).None? then multiset{}
    else if MapAt(after, status).None? then multiset{Break(where, StatusRemoved(status))}
    else
      match (ResolvedBody(previous, MapAt(before, status).value), ResolvedBody(current, MapAt(after, status).value))
      case (Some(was), Some(now)) => BodyBreaks(previous, current, where, was, now)
      case _ => multiset{}
  }

  ghost function StatusPart(
      previous: Document, current: Document, where: string, before: Object, after: Object)
    : string -> multiset<Break>
  {
    status => StatusBreaks(previous, current, where, before, after, status)
  }

  ghost function ResponseBreaks(
      previous: Document, current: Document, where: string, before: Object, after: Object): multiset<Break>
  {
    match (MapAt(before, "responses"), MapAt(after, "responses"))
    case (Some(was), Some(now)) => Sum(was.Keys, StatusPart(previous, current, where, was, now))
    case _ => multiset{}
  }

  method CompareResponses(
      previous: Document, current: Document, where: string, before: Object, after: Object)
    returns (breaks: seq<Break>)
    ensures multiset(breaks) == ResponseBreaks(previous, current, where, before, after)
  {
    breaks := [];
    var beforeResponses := MapAt(before, "responses");
    if beforeResponses.None? { return; }
    var afterResponses := MapAt(after, "responses");
    if afterResponses.None? { return; }
    var was, now := beforeResponses.value, afterResponses.value;
    ghost var part := StatusPart(previous, current, where, was, now);
    var todo := was.Keys;
    while todo != {}
      invariant todo <= was.Keys
      invariant multiset(breaks) == Sum(was.Keys - todo, part)
    {
      var status :| status in todo;
      ghost var done := was.Keys - todo;
      todo := todo - {status};
      assert was.Keys - todo == done + {status};
      SumAdd(done, part, status);
      if !IsSuccess(status) { continue; }
      if !was[status].Table? { continue; }
      var afterMap := MapAt(now, status);
      if afterMap.None? {
        breaks := breaks + [Break(where, StatusRemoved(status))];
        continue;
      }
      var beforeSchema := Resolve(previous, BodySchema(was[status].fields));
      var afterSchema := Resolve(current, BodySchema(afterMap.value));
      if beforeSchema.None? || afterSchema.None? { continue; }
      var reported := CompareBodies(previous, current, where, beforeSchema.value, afterSchema.value);
      breaks := breaks + reported;
    }
    assert was.Keys - todo == was.Keys;
  }

  method CompareBodies(previous: Document, current: Document, where: string, was: Object, now: Object)
    returns (breaks: seq<Break>)
    ensures multiset(breaks) == BodyBreaks(previous, current, where, was, now)
  {
    var nowRequired := ReadRequiredNames(now);
    var afterProperties := ReadProperties(current, now);
    var wasRequired := ReadRequiredNames(was);
    var lost := CompareGuarantees(where, wasRequired, nowRequired, afterProperties);
    var beforeProperties := ReadProperties(previous, was);
    var retyped := CompareResponseTypes(where, beforeProperties, afterProperties);
    breaks := lost + retyped;
  }

  method CompareGuarantees(
      where: string, wasRequired: set<string>, nowRequired: set<string>, afterProperties: map<string, Object>)
    returns (breaks: seq<Break>)
    ensures multiset(breaks) == Sum(wasRequired, GuaranteePart(where, afterProperties, nowRequired))
  {
    var names := Ordering.SortedNames(wasRequired);
    NamesAreTheSet(names, wasRequired);
    breaks := CompareEachGuarantee(where, names, nowRequired, afterProperties);
  }

  method CompareEachGuarantee(
      where: string, names: seq<string>, nowRequired: set<string>, afterProperties: map<string, Object>)
    returns (breaks: seq<Break>)
    requires forall a, b | 0 <= a < b < |names| :: Ordering.StringLess(names[a], names[b])
    ensures multiset(breaks) ==
      Sum(FirstNames(names, |names|), GuaranteePart(where, afterProperties, nowRequired))
  {
    breaks := [];
    ghost var part := GuaranteePart(where, afterProperties, nowRequired);
    for i := 0 to |names|
      invariant multiset(breaks) == Sum(FirstNames(names, i), part)
    {
      SumNext(names, i, part);
      var lost := CompareGuarantee(where, names[i], names[i] in afterProperties, names[i] in nowRequired);
      breaks := breaks + lost;
    }
  }

  method CompareGuarantee(where: string, name: string, present: bool, required: bool) returns (breaks: seq<Break>)
    ensures multiset(breaks) == GuaranteeBreaks(where, name, present, required)
  {
    if !present { return [Break(where, PropertyRemoved(name))]; }
    if !required { return [Break(where, NoLongerGuaranteed(name))]; }
    return [];
  }

  method CompareResponseTypes(
      where: string, beforeProperties: map<string, Object>, afterProperties: map<string, Object>)
    returns (breaks: seq<Break>)
    ensures multiset(breaks) ==
      Sum(beforeProperties.Keys, ResponseTypePart(where, beforeProperties, afterProperties))
  {
    breaks := [];
    ghost var part := ResponseTypePart(where, beforeProperties, afterProperties);
    var todo := beforeProperties.Keys;
    while todo != {}
      invariant todo <= beforeProperties.Keys
      invariant multiset(breaks) == Sum(beforeProperties.Keys - todo, part)
    {
      var name :| name in todo;
      ghost var done := beforeProperties.Keys - todo;
      todo := todo - {name};
      assert beforeProperties.Keys - todo == done + {name};
      SumAdd(done, part, name);
      if name !in afterProperties { continue; }
      var before, after := beforeProperties[name], afterProperties[name];
      if TypeChanged(before, after) {
        breaks := breaks + [Break(where, ResponseTypeChanged(name, TypeName(before), TypeName(after)))];
      }
    }
    assert beforeProperties.Keys - todo == beforeProperties.Keys;
  }

  // ------------------------------------------------------------- the gate

  ghost function OperationBreaks(
      previous: Document, current: Document, path: string, before: Object, after: Object,
      verb: string): multiset<Break>
  {
    var where := OperationName(verb, path);
    match (MapAt(before, verb), MapAt(after, verb))
    case (None, _) => multiset{}
    case (Some(_), None) => multiset{Break(where, OperationRemoved)}
    case (Some(operation), Some(replacement)) =>
      RequestBreaks(previous, current, where, operation, replacement)
      + ResponseBreaks(previous, current, where, operation, replacement)
  }

  ghost function OperationsBreaks(
      previous: Document, current: Document, path: string, before: Object, after: Object,
      count: nat): multiset<Break>
    requires count <= |METHODS|
  {
    if count == 0 then multiset{}
    else
      OperationsBreaks(previous, current, path, before, after, count - 1)
      + OperationBreaks(previous, current, path, before, after, METHODS[count - 1])
  }

  ghost function PathBreaks(previous: Document, current: Document, path: string): multiset<Break> {
    if path !in Paths(previous) then multiset{}
    else if path !in Paths(current) then multiset{Break(path, PathRemoved)}
    else OperationsBreaks(previous, current, path, Paths(previous)[path], Paths(current)[path], |METHODS|)
  }

  ghost function PathPart(previous: Document, current: Document): string -> multiset<Break> {
    path => PathBreaks(previous, current, path)
  }

  ghost function AllBreaks(previous: Document, current: Document): multiset<Break> {
    Sum(Paths(previous).Keys, PathPart(previous, current))
  }

  // ------------------------------------------------------------- the words

  // Whether a reason quotes a property's name.
  predicate Named(change: Change) {
    !change.PathRemoved? && !change.OperationRemoved? && !change.StatusRemoved?
  }

  predicate OfRequest(change: Change) {
    change.NowRequired? || change.ValueRefused? || change.RequestTypeChanged?
  }

  // What a reason says after the name it quotes.
  function Ending(change: Change, printable: char -> bool): string
    requires Named(change)
  {
    match change
    case NowRequired(_) => " is now required" + ", so an existing client's request is rejected"
    case ValueRefused(_, value) => " no longer accepts " + Quote(value, printable)
    case RequestTypeChanged(_, from, to) => " changed from " + (from + " to " + to)
    case PropertyRemoved(_) => " was removed" + ", and it was one a client could rely on"
    case NoLongerGuaranteed(_) => " is no longer guaranteed" + ", so a client reading it may find nothing"
    case ResponseTypeChanged(_, from, to) => " changed from " + (from + " to " + to)
  }

  function Reason(change: Change, printable: char -> bool): string {
    match change
    case PathRemoved =>
      "the path was removed" + ", so a client still calling it gets a 404"
    case OperationRemoved =>
      "the operation was removed" + ", so a client still calling it gets a 405 or a 404"
    case StatusRemoved(status) =>
      "the " + (status + " response was removed, so a client expecting it has no branch left")
    case _ =>
      (if OfRequest(change) then "request property " else "response property ")
      + (Quote(change.name, printable) + Ending(change, printable))
  }

  datatype Advice =
    | KeepThePath | KeepTheOperation | MakeItOptional | KeepAccepting | AddANewProperty
    | KeepTheStatus | KeepSending | KeepItRequired

  // Which remedy is printed; the text of each is fixed.
  function Remedy(change: Change): Advice {
    match change
    case PathRemoved => KeepThePath
    case OperationRemoved => KeepTheOperation
    case NowRequired(_) => MakeItOptional
    case ValueRefused(_, _) => KeepAccepting
    case RequestTypeChanged(_, _, _) => AddANewProperty
    case StatusRemoved(_) => KeepTheStatus
    case PropertyRemoved(_) => KeepSending
    case NoLongerGuaranteed(_) => KeepItRequired
    case ResponseTypeChanged(_, _, _) => AddANewProperty
  }

  function Printer(printable: char -> bool): Break -> Line<Advice> {
    (b: Break) => Line(b.where, Reason(b.change, printable), Remedy(b.change))
  }

  method Compare(previous: Document, current: Document, printable: char -> bool)
    returns (breaks: seq<Break>)
    ensures multiset(breaks) == AllBreaks(previous, current)
    ensures Ordering.SortedBy(Before(Printer(printable)), breaks)
  {
    breaks := [];
    var beforePaths := ReadPaths(previous);
    ghost var part := PathPart(previous, current);
    var todo := beforePaths.Keys;
    while todo != {}
      invariant todo <= beforePaths.Keys
      invariant multiset(breaks) == Sum(beforePaths.Keys - todo, part)
    {
      var path :| path in todo;
      ghost var done := beforePaths.Keys - todo;
      todo := todo - {path};
      assert beforePaths.Keys - todo == done + {path};
      SumAdd(done, part, path);
      var afterPaths := ReadPaths(current);
      if path !in afterPaths {
        breaks := breaks + [Break(path, PathRemoved)];
        continue;
      }
      var reported := CompareOperations(previous, current, path, beforePaths[path], afterPaths[path]);
      breaks := breaks + reported;
    }
    assert beforePaths.Keys - todo == beforePaths.Keys;
    BeforeIsStrictWeak(Printer(printable));
    breaks := Ordering.Sort(Before(Printer(printable)), breaks);
  }

  method CompareOperations(
      previous: Document, current: Document, path: string, before: Object, after: Object)
    returns (breaks: seq<Break>)
    ensures multiset(breaks) == OperationsBreaks(previous, current, path, before, after, |METHODS|)
  {
    breaks := [];
    for i := 0 to |METHODS|
      invariant multiset(breaks) == OperationsBreaks(previous, current, path, before, after, i)
    {
      var reported := CompareOperation(previous, current, path, before, after, METHODS[i]);
      breaks := breaks + reported;
    }
  }

  method CompareOperation(
      previous: Document, current: Document, path: string, before: Object, after: Object, verb: string)
    returns (breaks: seq<Break>)
    ensures multiset(breaks) == OperationBreaks(previous, current, path, before, after, verb)
  {
    var where := OperationName(verb, path);
    var operation := MapAt(before, verb);
    if operation.None? { return []; }
    var replacement := MapAt(after, verb);
    if replacement.None? { return [Break(where, OperationRemoved)]; }
    var requests := CompareRequest(previous, current, where, operation.value, replacement.value);
    var responses := CompareResponses(previous, current, where, operation.value, replacement.value);
    return requests + responses;
  }

  // ---------------------------------------------------------- determinism

  // The letters that tell one reason from another: its third, its fifth, and
  // the second one after a quoted name.
  function Family(change: Change): char {
    if !Named(change) then 'e' else if OfRequest(change) then 'q' else 's'
  }

  function Plain(change: Change): char
    requires !Named(change)
  {
    match change case PathRemoved => 'p' case OperationRemoved => 'o' case StatusRemoved(_) => '2'
  }

  function Kind(change: Change): char
    requires Named(change)
  {
    match change
    case NowRequired(_) => 'i'
    case ValueRefused(_, _) => 'n'
    case RequestTypeChanged(_, _, _) => 'c'
    case PropertyRemoved(_) => 'w'
    case NoLongerGuaranteed(_) => 'i'
    case ResponseTypeChanged(_, _, _) => 'c'
  }

  lemma ReasonShowsFamily(change: Change, printable: char -> bool)
    requires change.StatusRemoved? ==> IsSuccess(change.status)
    ensures |Reason(change, printable)| > 4 && Reason(change, printable)[2] == Family(change)
    ensures !Named(change) ==> Reason(change, printable)[4] == Plain(change)
  {
    if Named(change) {
      NamedReasonOpens(change, printable);
    } else {
      PlainReasonOpens(change, printable);
    }
  }

  lemma NamedReasonOpens(change: Change, printable: char -> bool)
    requires Named(change)
    ensures |Reason(change, printable)| > 4 && Reason(change, printable)[2] == Family(change)
  {
    var tail := Quote(change.name, printable) + Ending(change, printable);
    if OfRequest(change) {
      assert ("request property " + tail)[2] == 'q';
    } else {
      assert ("response property " + tail)[2] == 's';
    }
  }

  lemma PlainReasonOpens(change: Change, printable: char -> bool)
    requires !Named(change) && (change.StatusRemoved? ==> IsSuccess(change.status))
    ensures |Reason(change, printable)| > 4 && Reason(change, printable)[2] == 'e'
    ensures Reason(change, printable)[4] == Plain(change)
  {
    match change
    case StatusRemoved(status) =>
      var tail := status + " response was removed, so a client expecting it has no branch left";
      assert ("the " + tail)[2] == 'e' && ("the " + tail)[4] == tail[0] == status[0];
    case PathRemoved =>
      var text := "the path was removed";
      assert text[2] == 'e' && text[4] == 'p';
    case OperationRemoved =>
      var text := "the operation was removed";
      assert text[2] == 'e' && text[4] == 'o';
  }

  lemma EndingShowsKind(change: Change, printable: char -> bool)
    requires Named(change)
    ensures |Ending(change, printable)| > 1 && Ending(change, printable)[1] == Kind(change)
  {
    match change
    case ValueRefused(_, value) =>
      assert (" no longer accepts " + Quote(value, printable))[1] == 'n';
    case RequestTypeChanged(_, from, to) =>
      assert (" changed from " + (from + " to " + to))[1] == 'c';
    case ResponseTypeChanged(_, from, to) =>
      assert (" changed from " + (from + " to " + to))[1] == 'c';
    case NowRequired(_) =>
      assert " is now required"[1] == 'i';
    case PropertyRemoved(_) =>
      assert " was removed"[1] == 'w';
    case NoLongerGuaranteed(_) =>
      assert " is no longer guaranteed"[1] == 'i';
  }

  lemma SameReasonSameEnding(x: Change, y: Change, printable: char -> bool)
    requires Named(x) && Named(y) && OfRequest(x) == OfRequest(y)
    requires Reason(x, printable) == Reason(y, printable)
    ensures x.name == y.name && Ending(x, printable) == Ending(y, printable)
  {
    var head := if OfRequest(x) then "request property " else "response property ";
    var s, t := Quote(x.name, printable) + Ending(x, printable), Quote(y.name, printable) + Ending(y, printable);
    assert (head + s)[|head|..] == s && (head + t)[|head|..] == t;
    QuoteSelfDelimiting(x.name, Ending(x, printable), y.name, Ending(y, printable), printable);
  }

  // The reason alone settles which remedy is printed beside it, although names,
  // statuses and types in it are whatever the documents say.
  lemma ReasonFixesRemedy(x: Change, y: Change, printable: char -> bool)
    requires Reason(x, printable) == Reason(y, printable)
    requires x.StatusRemoved? ==> IsSuccess(x.status)
    requires y.StatusRemoved? ==> IsSuccess(y.status)
    ensures Remedy(x) == Remedy(y)
  {
    ReasonShowsFamily(x, printable);
    ReasonShowsFamily(y, printable);
    if Named(x) {
      SameReasonSameEnding(x, y, printable);
      EndingShowsKind(x, printable);
      EndingShowsKind(y, printable);
    }
  }

  lemma StatusesAreSuccesses(previous: Document, current: Document, b: Break)
    requires b in AllBreaks(previous, current)
    ensures b.change.StatusRemoved? ==> IsSuccess(b.change.status)
  {
    SumMember(Paths(previous).Keys, PathPart(previous, current), b);
    var path :| path in Paths(previous).Keys && b in PathPart(previous, current)(path);
    if path in Paths(current) {
      OperationsMember(previous, current, path, Paths(previous)[path], Paths(current)[path], |METHODS|, b);
    }
  }

  lemma {:induction false} OperationsMember(
      previous: Document, current: Document, path: string, before: Object, after: Object,
      count: nat, b: Break)
    requires count <= |METHODS| && b in OperationsBreaks(previous, current, path, before, after, count)
    ensures exists i :: 0 <= i < count && b in OperationBreaks(previous, current, path, before, after, METHODS[i])
    ensures b.change.StatusRemoved? ==> IsSuccess(b.change.status)
    decreases count
  {
    if b in OperationBreaks(previous, current, path, before, after, METHODS[count - 1]) {
      var verb := METHODS[count - 1];
      if b.change.StatusRemoved? {
        StatusBreakIsSuccess(previous, current, OperationName(verb, path),
          MapAt(before, verb).value, MapAt(after, verb).value, b);
      }
    } else {
      OperationsMember(previous, current, path, before, after, count - 1, b);
    }
  }

  lemma StatusBreakIsSuccess(
      previous: Document, current: Document, where: string, before: Object, after: Object, b: Break)
    requires b.change.StatusRemoved?
    requires b in RequestBreaks(previous, current, where, before, after)
      || b in ResponseBreaks(previous, current, where, before, after)
    ensures IsSuccess(b.change.status)
  {
    if b in RequestBreaks(previous, current, where, before, after) {
      RequestBreaksAreNotStatuses(previous, current, where, before, after, b);
    } else {
      var was, now := MapAt(before, "responses").value, MapAt(after, "responses").value;
      SumMember(was.Keys, StatusPart(previous, current, where, was, now), b);
      var status :| status in was.Keys && b in StatusBreaks(previous, current, where, was, now, status);
      if b != Break(where, StatusRemoved(status)) {
        BodyBreaksAreNotStatuses(previous, current, where,
          ResolvedBody(previous, MapAt(was, status).value).value,
          ResolvedBody(current, MapAt(now, status).value).value, b);
      }
    }
  }

  lemma RequestBreaksAreNotStatuses(
      previous: Document, current: Document, where: string, before: Object, after: Object, b: Break)
    requires b in RequestBreaks(previous, current, where, before, after)
    ensures !b.change.StatusRemoved?
  {
    var was, now := ResolvedBody(previous, before).value, ResolvedBody(current, after).value;
    var declared, part := Properties(previous, was), RequestPart(where, Properties(previous, was), Properties(current, now));
    SumMember(declared.Keys, part, b);
    if b !in NewlyRequired(where, RequiredNames(now) - RequiredNames(was)) {
      var name :| name in declared.Keys && b in part(name);
      PropertyBreaksAreNotStatuses(where, name, declared[name], Properties(current, now)[name], b);
    }
  }

  lemma PropertyBreaksAreNotStatuses(where: string, name: string, before: Object, after: Object, b: Break)
    requires b in PropertyRequestBreaks(where, name, before, after)
    ensures !b.change.StatusRemoved?
  {
    var refused := Ordering.Map(Refusal(where, name), RemovedValues(before, after));
    if b in multiset(refused) {
      assert b in refused;
    }
  }

  lemma BodyBreaksAreNotStatuses(
      previous: Document, current: Document, where: string, was: Object, now: Object, b: Break)
    requires b in BodyBreaks(previous, current, where, was, now)
    ensures !b.change.StatusRemoved?
  {
    var before, after := Properties(previous, was), Properties(current, now);
    SumMember(RequiredNames(was), GuaranteePart(where, after, RequiredNames(now)), b);
    SumMember(before.Keys, ResponseTypePart(where, before, after), b);
  }

  // Whatever order the maps were visited in, and however an unstable sort broke
  // ties, what is printed is one fixed sequence.
  lemma ReportIsDeterministic(
      previous: Document, current: Document, printable: char -> bool, first: seq<Break>, second: seq<Break>)
    requires multiset(first) == AllBreaks(previous, current) == multiset(second)
    requires Ordering.SortedBy(Before(Printer(printable)), first)
    requires Ordering.SortedBy(Before(Printer(printable)), second)
    ensures Ordering.Map(Printer(printable), first) == Ordering.Map(Printer(printable), second)
  {
    forall x, y | x in first && y in first
      && Reason(x.change, printable) == Reason(y.change, printable)
      ensures Remedy(x.change) == Remedy(y.change)
    {
      assert x in multiset(first) && y in multiset(first);
      StatusesAreSuccesses(previous, current, x);
      StatusesAreSuccesses(previous, current, y);
      ReasonFixesRemedy(x.change, y.change, printable);
    }
    PrintsOneWay(Printer(printable), first, second);
  }
}
