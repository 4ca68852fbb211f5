/**
 * What a report of the HTTP contract gate says: each break it lists is there in the
 * two documents, and each that is there is listed.
 */
module HttpReports {
  import opened Wrappers
  import opened Documents
  import opened HttpGate
  import opened HttpReadings
  import opened Quoting
  import opened Sums
  import Ordering

  // -------------------------------------------------- what is there to report

  ghost predicate Retyped(before: Object, after: Object, from: string, to: string) {
    TypeName(before) == from && TypeName(after) == to && from != "" && to != "" && from != to
  }

  ghost predicate Refuses(before: Object, after: Object, value: string) {
    && EnumOf(before).Some? && EnumOf(after).Some? && EnumOf(after).value != []
    && value in EnumOf(before).value && value !in EnumOf(after).value
  }

  // Between two versions of one request property.
  ghost predicate PropertyTells(before: Object, after: Object, name: string, change: Change) {
    match change
    case ValueRefused(n, value) => n == name && Refuses(before, after, value)
    case RequestTypeChanged(n, from, to) => n == name && Retyped(before, after, from, to)
    case _ => false
  }

  // Between a request schema and the one that replaces it, by their properties and
  // what they require.
  ghost predicate RequestTells(
      before: map<string, Object>, after: map<string, Object>, was: set<string>, now: set<string>, change: Change)
  {
    if change.NowRequired? then change.name in now && change.name !in was
    else exists name :: name in before && name in after && PropertyTells(before[name], after[name], name, change)
  }

  // What was required of a response and is not any more.
  ghost predicate GuaranteeTells(names: set<string>, after: map<string, Object>, required: set<string>, change: Change) {
    || (change.PropertyRemoved? && change.name in names && change.name !in after)
    || (change.NoLongerGuaranteed? && change.name in names && change.name in after && change.name !in required)
  }

  // Between a response schema and the one that replaces it.
  ghost predicate BodyTells(
      before: map<string, Object>, after: map<string, Object>, was: set<string>, now: set<string>, change: Change)
  {
    || GuaranteeTells(was, after, now, change)
    || (change.ResponseTypeChanged? && change.name in before && change.name in after
        && Retyped(before[change.name], after[change.name], change.from, change.to))
  }

  ghost predicate BodiesTell(
      previous: Document, current: Document, was: Option<Object>, now: Option<Object>, change: Change)
  {
    && was.Some? && now.Some?
    && BodyTells(Properties(previous, was.value), Properties(current, now.value),
                 RequiredNames(was.value), RequiredNames(now.value), change)
  }

  // Under a status whose number starts with a two.
  ghost predicate StatusTells(
      previous: Document, current: Document, before: Object, after: Object, status: string, change: Change)
  {
    && status != "" && status[0] == '2' && MapAt(before, status).Some?
    && match MapAt(after, status)
       case None => change == StatusRemoved(status)
       case Some(replacement) =>
         BodiesTell(previous, current, ResolvedBody(previous, MapAt(before, status).value),
                    ResolvedBody(current, replacement), change)
  }

  ghost predicate OperationTells(previous: Document, current: Document, before: Object, after: Object, change: Change) {
    || (var was, now := ResolvedBody(previous, before), ResolvedBody(current, after);
        && was.Some? && now.Some?
        && RequestTells(Properties(previous, was.value), Properties(current, now.value),
                        RequiredNames(was.value), RequiredNames(now.value), change))
    || (var was, now := MapAt(before, "responses"), MapAt(after, "responses");
        was.Some? && now.Some? && exists status :: StatusTells(previous, current, was.value, now.value, status, change))
  }

  // An operation is named by its verb in capitals and its path.
  function Capitals(verb: string): string {
    match verb
    case "get" => "GET"
    case "put" => "PUT"
    case "post" => "POST"
    case "delete" => "DELETE"
    case "patch" => "PATCH"
    case "head" => "HEAD"
    case "options" => "OPTIONS"
    case _ => ""
  }

  ghost predicate VerbTells(
      previous: Document, current: Document, path: string, before: Object, after: Object, verb: string, b: Break)
  {
    && verb in METHODS
    && MapAt(before, verb).Some? && b.where == Capitals(verb) + " " + path
    && match MapAt(after, verb)
       case None => b.change == OperationRemoved
       case Some(replacement) => OperationTells(previous, current, MapAt(before, verb).value, replacement, b.change)
  }

  ghost predicate PathTells(previous: Document, current: Document, path: string, b: Break) {
    && path in Paths(previous)
    && if path !in Paths(current) then b == Break(path, PathRemoved)
       else exists verb :: VerbTells(previous, current, path, Paths(previous)[path], Paths(current)[path], verb, b)
  }

  ghost predicate Tells(previous: Document, current: Document, b: Break) {
    exists path :: PathTells(previous, current, path, b)
  }

  // ------------------------------------------------------- and is reported

  lemma PropertyReports(where: string, name: string, before: Object, after: Object, b: Break)
    ensures b in PropertyRequestBreaks(where, name, before, after)
      <==> (b.where == where && PropertyTells(before, after, name, b.change))
  {
    var refused := multiset(Ordering.Map(Refusal(where, name), RemovedValues(before, after)));
    var retyped := Once(TypeChanged(before, after),
                        Break(where, RequestTypeChanged(name, TypeName(before), TypeName(after))));
    InEither(refused, retyped, b);
    RefusalsReport(where, name, before, after, b);
    RetypeReports(where, name, before, after, b);
  }

  lemma RetypeReports(where: string, name: string, before: Object, after: Object, b: Break)
    ensures b in Once(TypeChanged(before, after),
                      Break(where, RequestTypeChanged(name, TypeName(before), TypeName(after))))
      <==> (b.where == where && b.change.RequestTypeChanged? && b.change.name == name
            && Retyped(before, after, b.change.from, b.change.to))
  {
  }

  lemma RefusalsReport(where: string, name: string, before: Object, after: Object, b: Break)
    ensures b in multiset(Ordering.Map(Refusal(where, name), RemovedValues(before, after)))
      <==> (b.change.ValueRefused? && b == Break(where, ValueRefused(name, b.change.value))
            && Refuses(before, after, b.change.value))
  {
    ListedRefusals(where, name, RemovedValues(before, after), b);
    if b.change.ValueRefused? { RemovedIsRefused(before, after, b.change.value); }
  }

  lemma ListedRefusals(where: string, name: string, removed: seq<string>, b: Break)
    ensures b in multiset(Ordering.Map(Refusal(where, name), removed))
      <==> b.change.ValueRefused? && b == Break(where, ValueRefused(name, b.change.value)) && b.change.value in removed
  {
    var refused := Ordering.Map(Refusal(where, name), removed);
    assert b in multiset(refused) <==> b in refused;
    if b in refused {
      var i :| 0 <= i < |refused| && refused[i] == b;
      assert removed[i] in removed;
    }
    if b.change.ValueRefused? && b == Break(where, ValueRefused(name, b.change.value)) && b.change.value in removed {
      var i :| 0 <= i < |removed| && removed[i] == b.change.value;
      assert refused[i] == b;
    }
  }

  lemma RemovedIsRefused(before: Object, after: Object, value: string)
    ensures value in RemovedValues(before, after) <==> Refuses(before, after, value)
  {
    if EnumOf(before).Some? && EnumOf(after).Some? {
      Ordering.MissingMember(EnumOf(before).value, EnumOf(after).value, value);
    }
  }

  lemma RequestReports(previous: Document, current: Document, where: string, before: Object, after: Object, b: Break)
    ensures b in RequestBreaks(previous, current, where, before, after) <==>
      (var was, now := ResolvedBody(previous, before), ResolvedBody(current, after);
       && b.where == where && was.Some? && now.Some?
       && RequestTells(Properties(previous, was.value), Properties(current, now.value),
                       RequiredNames(was.value), RequiredNames(now.value), b.change))
  {
    var was, now := ResolvedBody(previous, before), ResolvedBody(current, after);
    if was.Some? && now.Some? {
      SchemasReport(where, Properties(previous, was.value), Properties(current, now.value),
                    RequiredNames(was.value), RequiredNames(now.value), b);
    }
  }

  lemma SchemasReport(
      where: string, p: map<string, Object>, q: map<string, Object>, was: set<string>, now: set<string>, b: Break)
    ensures b in NewlyRequired(where, now - was) + Sum(p.Keys, RequestPart(where, p, q))
      <==> (b.where == where && RequestTells(p, q, was, now, b.change))
  {
    InEither(NewlyRequired(where, now - was), Sum(p.Keys, RequestPart(where, p, q)), b);
    RequiredReports(where, now - was, b);
    PropertiesReport(where, p, q, b);
  }

  lemma PropertiesReport(where: string, p: map<string, Object>, q: map<string, Object>, b: Break)
    ensures b in Sum(p.Keys, RequestPart(where, p, q)) <==>
      (b.where == where && exists name :: name in p && name in q && PropertyTells(p[name], q[name], name, b.change))
  {
    var part := RequestPart(where, p, q);
    SumMember(p.Keys, part, b);
    forall name | name in p && name in q
      ensures b in part(name) <==> (b.where == where && PropertyTells(p[name], q[name], name, b.change))
    {
      PropertyReports(where, name, p[name], q[name], b);
    }
  }

  lemma RequiredReports(where: string, names: set<string>, b: Break)
    ensures b in NewlyRequired(where, names) <==> b.where == where && b.change.NowRequired? && b.change.name in names
  {
  }

  lemma GuaranteesReport(where: string, names: set<string>, after: map<string, Object>, required: set<string>, b: Break)
    ensures b in Sum(names, GuaranteePart(where, after, required))
      <==> (b.where == where && GuaranteeTells(names, after, required, b.change))
  {
    var part := GuaranteePart(where, after, required);
    SumMember(names, part, b);
    forall name | name in names
      ensures b in part(name) ==> b.where == where && GuaranteeTells(names, after, required, b.change)
    {
    }
    if b.where == where && GuaranteeTells(names, after, required, b.change) { assert b in part(b.change.name); }
  }

  lemma RetypesReport(where: string, before: map<string, Object>, after: map<string, Object>, b: Break)
    ensures b in Sum(before.Keys, ResponseTypePart(where, before, after)) <==>
      (&& b.where == where && b.change.ResponseTypeChanged? && b.change.name in before && b.change.name in after
       && Retyped(before[b.change.name], after[b.change.name], b.change.from, b.change.to))
  {
    var part := ResponseTypePart(where, before, after);
    SumMember(before.Keys, part, b);
    if b.change.ResponseTypeChanged? && b.change.name in before {
      assert b.change.name in before.Keys;
      assert b in part(b.change.name) <==> (b.where == where && b.change.name in after
        && Retyped(before[b.change.name], after[b.change.name], b.change.from, b.change.to));
    }
  }

  lemma BodyReports(
      where: string, p: map<string, Object>, q: map<string, Object>, was: set<string>, now: set<string>, b: Break)
    ensures b in Sum(was, GuaranteePart(where, q, now)) + Sum(p.Keys, ResponseTypePart(where, p, q))
      <==> (b.where == where && BodyTells(p, q, was, now, b.change))
  {
    InEither(Sum(was, GuaranteePart(where, q, now)), Sum(p.Keys, ResponseTypePart(where, p, q)), b);
    GuaranteesReport(where, was, q, now, b);
    RetypesReport(where, p, q, b);
  }

  // The same of two bodies, where both resolve.
  lemma BodiesReport(
      previous: Document, current: Document, where: string, was: Option<Object>, now: Option<Object>, b: Break)
    ensures b in BodiesBreaks(previous, current, where, was, now) <==>
      b.where == where && BodiesTell(previous, current, was, now, b.change)
  {
    if was.Some? && now.Some? {
      BodyReports(where, Properties(previous, was.value), Properties(current, now.value),
                  RequiredNames(was.value), RequiredNames(now.value), b);
    }
  }

  ghost function BodiesBreaks(
      previous: Document, current: Document, where: string, was: Option<Object>, now: Option<Object>): multiset<Break>
  {
    if was.Some? && now.Some? then BodyBreaks(previous, current, where, was.value, now.value) else multiset{}
  }

  lemma StatusReports(
      previous: Document, current: Document, where: string, before: Object, after: Object, status: string, b: Break)
    ensures b in StatusBreaks(previous, current, where, before, after, status) <==>
      b.where == where && StatusTells(previous, current, before, after, status, b.change)
  {
    if !IsSuccess(status) || MapAt(before, status).None? {
      assert b !in StatusBreaks(previous, current, where, before, after, status);
    } else if MapAt(after, status).None? {
      assert StatusBreaks(previous, current, where, before, after, status) == multiset{Break(where, StatusRemoved(status))};
    } else {
      var was, now := ResolvedBody(previous, MapAt(before, status).value), ResolvedBody(current, MapAt(after, status).value);
      assert StatusBreaks(previous, current, where, before, after, status)
        == BodiesBreaks(previous, current, where, was, now);
      BodiesReport(previous, current, where, was, now, b);
    }
  }

  lemma ResponsesReport(previous: Document, current: Document, where: string, before: Object, after: Object, b: Break)
    ensures b in ResponseBreaks(previous, current, where, before, after) <==>
      var was, now := MapAt(before, "responses"), MapAt(after, "responses");
      && b.where == where && was.Some? && now.Some?
      && exists status :: StatusTells(previous, current, was.value, now.value, status, b.change)
  {
    var was, now := MapAt(before, "responses"), MapAt(after, "responses");
    if was.Some? && now.Some? {
      var part := StatusPart(previous, current, where, was.value, now.value);
      SumMember(was.value.Keys, part, b);
      forall status ensures b in part(status) <==>
        b.where == where && StatusTells(previous, current, was.value, now.value, status, b.change)
      {
        StatusReports(previous, current, where, was.value, now.value, status, b);
      }
      if status :| StatusTells(previous, current, was.value, now.value, status, b.change) && b.where == where {
        assert status in was.value.Keys && b in part(status);
      }
    }
  }

  // Which keys of a path are operations.
  lemma VerbsRead(verb: string)
    ensures verb in METHODS <==> verb in {"get", "put", "post", "delete", "patch", "head", "options"}
    ensures verb in METHODS ==> Upper(verb) == Capitals(verb)
  {
    assert METHODS[0] == "get" && METHODS[1] == "put" && METHODS[2] == "post" && METHODS[3] == "delete";
    assert METHODS[4] == "patch" && METHODS[5] == "head" && METHODS[6] == "options";
  }

  lemma VerbReports(
      previous: Document, current: Document, path: string, before: Object, after: Object, verb: string, b: Break)
    requires verb in METHODS
    ensures b in OperationBreaks(previous, current, path, before, after, verb) <==>
      VerbTells(previous, current, path, before, after, verb, b)
  {
    VerbsRead(verb);
    var where := OperationName(verb, path);
    if MapAt(before, verb).Some? && MapAt(after, verb).Some? {
      RequestReports(previous, current, where, MapAt(before, verb).value, MapAt(after, verb).value, b);
      ResponsesReport(previous, current, where, MapAt(before, verb).value, MapAt(after, verb).value, b);
    }
  }

  lemma {:induction false} OperationsMembers(
      previous: Document, current: Document, path: string, before: Object, after: Object, count: nat, b: Break)
    requires count <= |METHODS|
    ensures b in OperationsBreaks(previous, current, path, before, after, count) ==>
      exists i :: 0 <= i < count && b in OperationBreaks(previous, current, path, before, after, METHODS[i])
    ensures forall i | 0 <= i < count && b in OperationBreaks(previous, current, path, before, after, METHODS[i]) ::
      b in OperationsBreaks(previous, current, path, before, after, count)
    decreases count
  {
    if count > 0 {
      InEither(OperationsBreaks(previous, current, path, before, after, count - 1),
               OperationBreaks(previous, current, path, before, after, METHODS[count - 1]), b);
      OperationsMembers(previous, current, path, before, after, count - 1, b);
    }
  }

  lemma OperationsReport(previous: Document, current: Document, path: string, before: Object, after: Object, b: Break)
    ensures b in OperationsBreaks(previous, current, path, before, after, |METHODS|) <==>
      exists verb :: VerbTells(previous, current, path, before, after, verb, b)
  {
    OperationsMembers(previous, current, path, before, after, |METHODS|, b);
    if i :| 0 <= i < |METHODS| && b in OperationBreaks(previous, current, path, before, after, METHODS[i]) {
      VerbReports(previous, current, path, before, after, METHODS[i], b);
    }
    if verb :| VerbTells(previous, current, path, before, after, verb, b) {
      var i :| 0 <= i < |METHODS| && METHODS[i] == verb;
      VerbReports(previous, current, path, before, after, METHODS[i], b);
    }
  }

  lemma PathReports(previous: Document, current: Document, path: string, b: Break)
    ensures b in PathBreaks(previous, current, path) <==> PathTells(previous, current, path, b)
  {
    if path in Paths(previous) && path in Paths(current) {
      OperationsReport(previous, current, path, Paths(previous)[path], Paths(current)[path], b);
    }
  }

  // A break is in the report exactly when the two documents tell it.
  lemma ReportedExactlyWhenTold(previous: Document, current: Document, b: Break)
    ensures b in AllBreaks(previous, current) <==> Tells(previous, current, b)
  {
    SumMember(Paths(previous).Keys, PathPart(previous, current), b);
    forall path ensures b in PathPart(previous, current)(path) <==> PathTells(previous, current, path, b) {
      PathReports(previous, current, path, b);
    }
    if path :| PathTells(previous, current, path, b) {
      assert path in Paths(previous).Keys && b in PathPart(previous, current)(path);
    }
  }

  // ---------------------------------------------------- behind a reference

  // An operation answers under a status with a component, by reference.
  ghost predicate AnswersWith(d: Document, path: string, verb: string, status: string, component: string) {
    exists item, operation ::
      && TableBeneath(d.raw, "paths", path, item) && TableAt(item, verb, operation)
      && AnswersBy(operation, status, map["$ref" := Text("#/components/schemas/" + component)])
  }

  ghost predicate AnswersBy(operation: Object, status: string, schema: Object) {
    exists response :: TableBeneath(operation, "responses", status, response) && BodyOf(response, schema)
  }

  lemma AnswersAreRead(d: Document, operation: Object, status: string, component: string, schema: Object)
    requires AnswersBy(operation, status, map["$ref" := Text("#/components/schemas/" + component)])
    requires Declares(d, component, schema) && IsNoReference(schema)
    ensures MapAt(operation, "responses").Some? && MapAt(MapAt(operation, "responses").value, status).Some?
    ensures ResolvedBody(d, MapAt(MapAt(operation, "responses").value, status).value) == Some(schema)
  {
    var reference: Object := map["$ref" := Text("#/components/schemas/" + component)];
    var response :| TableBeneath(operation, "responses", status, response) && BodyOf(response, reference);
    BodiesAreRead(response, reference);
    ReferenceResolves(d, component, schema);
  }

  // A property an old client could rely on, dropped from the component an answer
  // refers to, is reported.
  lemma DroppedGuaranteeIsReported(
      previous: Document, current: Document, path: string, verb: string, status: string, component: string,
      was: Object, now: Object, property: string)
    requires verb in {"get", "put", "post", "delete", "patch", "head", "options"} && status != "" && status[0] == '2'
    requires AnswersWith(previous, path, verb, status, component) && AnswersWith(current, path, verb, status, component)
    requires Declares(previous, component, was) && IsNoReference(was)
    requires Declares(current, component, now) && IsNoReference(now)
    requires "required" in was && was["required"].List? && Text(property) in was["required"].items
    requires forall schema :: !TableBeneath(now, "properties", property, schema)
    ensures Break(Capitals(verb) + " " + path, PropertyRemoved(property)) in AllBreaks(previous, current)
  {
    var b := Break(Capitals(verb) + " " + path, PropertyRemoved(property));
    var operation := OperationAnswering(previous, path, verb, status, component);
    var replacement := OperationAnswering(current, path, verb, status, component);
    GuaranteeIsTold(previous, current, operation, replacement, status, component, was, now, property);
    OperationIsReported(previous, current, path, verb, operation, replacement, b);
  }

  lemma OperationAnswering(d: Document, path: string, verb: string, status: string, component: string)
    returns (operation: Object)
    requires AnswersWith(d, path, verb, status, component)
    ensures path in Paths(d) && MapAt(Paths(d)[path], verb) == Some(operation)
    ensures AnswersBy(operation, status, map["$ref" := Text("#/components/schemas/" + component)])
  {
    var item, found :| TableBeneath(d.raw, "paths", path, item) && TableAt(item, verb, found)
      && AnswersBy(found, status, map["$ref" := Text("#/components/schemas/" + component)]);
    PathsAreRead(d, path, item);
    operation := found;
  }

  lemma OperationIsReported(
      previous: Document, current: Document, path: string, verb: string, operation: Object, replacement: Object, b: Break)
    requires verb in {"get", "put", "post", "delete", "patch", "head", "options"}
    requires b.where == Capitals(verb) + " " + path && OperationTells(previous, current, operation, replacement, b.change)
    requires path in Paths(previous) && MapAt(Paths(previous)[path], verb) == Some(operation)
    requires path in Paths(current) && MapAt(Paths(current)[path], verb) == Some(replacement)
    ensures b in AllBreaks(previous, current)
  {
    VerbsRead(verb);
    assert VerbTells(previous, current, path, Paths(previous)[path], Paths(current)[path], verb, b);
    assert PathTells(previous, current, path, b);
    ReportedExactlyWhenTold(previous, current, b);
  }

  lemma GuaranteeIsTold(
      previous: Document, current: Document, operation: Object, replacement: Object, status: string, component: string,
      was: Object, now: Object, property: string)
    requires status != "" && status[0] == '2'
    requires AnswersBy(operation, status, map["$ref" := Text("#/components/schemas/" + component)])
    requires AnswersBy(replacement, status, map["$ref" := Text("#/components/schemas/" + component)])
    requires Declares(previous, component, was) && IsNoReference(was)
    requires Declares(current, component, now) && IsNoReference(now)
    requires "required" in was && was["required"].List? && Text(property) in was["required"].items
    requires forall schema :: !TableBeneath(now, "properties", property, schema)
    ensures OperationTells(previous, current, operation, replacement, PropertyRemoved(property))
  {
    AnswersAreRead(previous, operation, status, component, was);
    AnswersAreRead(current, replacement, status, component, now);
    SchemasAreRead(was, property, map[]);
    if property in Declared(now) { SchemasAreRead(now, property, Declared(now)[property]); }
    assert StatusTells(previous, current, MapAt(operation, "responses").value, MapAt(replacement, "responses").value,
                       status, PropertyRemoved(property));
  }

  // ------------------------------------------------------------- in words

  // Each reason as the report words it.
  lemma RemovalsAreWorded(status: string, printable: char -> bool)
    ensures Reason(PathRemoved, printable) == "the path was removed" + ", so a client still calling it gets a 404"
    ensures Reason(OperationRemoved, printable)
      == "the operation was removed" + ", so a client still calling it gets a 405 or a 404"
    ensures Reason(StatusRemoved(status), printable)
      == "the " + (status + " response was removed, so a client expecting it has no branch left")
  {
  }

  lemma RequestReasonsAreWorded(name: string, value: string, from: string, to: string, printable: char -> bool)
    ensures Reason(NowRequired(name), printable) == "request property "
      + (Quote(name, printable) + (" is now required" + ", so an existing client's request is rejected"))
    ensures Reason(ValueRefused(name, value), printable) == "request property "
      + (Quote(name, printable) + (" no longer accepts " + Quote(value, printable)))
    ensures Reason(RequestTypeChanged(name, from, to), printable) == "request property "
      + (Quote(name, printable) + (" changed from " + (from + " to " + to)))
  {
  }

  lemma ResponseReasonsAreWorded(name: string, from: string, to: string, printable: char -> bool)
    ensures Reason(PropertyRemoved(name), printable) == "response property "
      + (Quote(name, printable) + (" was removed" + ", and it was one a client could rely on"))
    ensures Reason(NoLongerGuaranteed(name), printable) == "response property "
      + (Quote(name, printable) + (" is no longer guaranteed" + ", so a client reading it may find nothing"))
    ensures Reason(ResponseTypeChanged(name, from, to), printable) == "response property "
      + (Quote(name, printable) + (" changed from " + (from + " to " + to)))
  {
  }

  // Which remedy is printed with it.
  lemma AdviceFitsTheChange(name: string, value: string, from: string, to: string)
    ensures Remedy(PathRemoved) == KeepThePath && Remedy(OperationRemoved) == KeepTheOperation
    ensures Remedy(NowRequired(name)) == MakeItOptional && Remedy(ValueRefused(name, value)) == KeepAccepting
    ensures Remedy(RequestTypeChanged(name, from, to)) == AddANewProperty == Remedy(ResponseTypeChanged(name, from, to))
    ensures Remedy(StatusRemoved(name)) == KeepTheStatus && Remedy(PropertyRemoved(name)) == KeepSending
    ensures Remedy(NoLongerGuaranteed(name)) == KeepItRequired
  {
  }
}
