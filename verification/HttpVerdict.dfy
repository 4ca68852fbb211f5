/**
 * When the HTTP contract gate stays silent, as a statement about the two
 * documents, and when it does so for a document compared with itself.
 */
module HttpVerdict {
  import opened Wrappers
  import opened Documents
  import opened HttpGate
  import opened Sums
  import Ordering

  ghost predicate KeepsValues(before: Object, after: Object) {
    EnumOf(before).Some? && EnumOf(after).Some? && EnumOf(after).value != [] ==>
      forall v | v in EnumOf(before).value :: v in EnumOf(after).value
  }

  ghost predicate RequestHolds(previous: Document, current: Document, was: Object, now: Object) {
    var before, after := Properties(previous, was), Properties(current, now);
    && RequiredNames(now) <= RequiredNames(was)
    && forall name | name in before && name in after ::
         KeepsValues(before[name], after[name]) && !TypeChanged(before[name], after[name])
  }

  ghost predicate BodyHolds(previous: Document, current: Document, was: Object, now: Object) {
    var before, after := Properties(previous, was), Properties(current, now);
    && (forall name | name in RequiredNames(was) :: name in after && name in RequiredNames(now))
    && (forall name | name in before && name in after :: !TypeChanged(before[name], after[name]))
  }

  ghost predicate StatusHolds(
      previous: Document, current: Document, before: Object, after: Object, status: string)
  {
    IsSuccess(status) && MapAt(before, status).Some? ==>
      && MapAt(after, status).Some?
      && var was, now := ResolvedBody(previous, MapAt(before, status).value),
                         ResolvedBody(current, MapAt(after, status).value);
         (was.Some? && now.Some? ==> BodyHolds(previous, current, was.value, now.value))
  }

  ghost predicate OperationHolds(previous: Document, current: Document, before: Object, after: Object) {
    && (var was, now := ResolvedBody(previous, before), ResolvedBody(current, after);
        was.Some? && now.Some? ==> RequestHolds(previous, current, was.value, now.value))
    && (var was, now := MapAt(before, "responses"), MapAt(after, "responses");
        was.Some? && now.Some? ==>
          forall status | status in was.value ::
            StatusHolds(previous, current, was.value, now.value, status))
  }

  ghost predicate VerbHolds(
      previous: Document, current: Document, before: Object, after: Object, verb: string)
  {
    MapAt(before, verb).Some? ==>
      && MapAt(after, verb).Some?
      && OperationHolds(previous, current, MapAt(before, verb).value, MapAt(after, verb).value)
  }

  ghost predicate Holds(previous: Document, current: Document) {
    forall path | path in Paths(previous) ::
      && path in Paths(current)
      && forall verb | verb in METHODS ::
           VerbHolds(previous, current, Paths(previous)[path], Paths(current)[path], verb)
  }

  // ------------------------------------------------- silence means it holds

  lemma NothingRemoved(before: Object, after: Object)
    ensures RemovedValues(before, after) == [] <==> KeepsValues(before, after)
  {
    if EnumOf(before).Some? && EnumOf(after).Some? && EnumOf(after).value != [] {
      var was, now := EnumOf(before).value, EnumOf(after).value;
      var removed := RemovedValues(before, after);
      forall v ensures v in removed <==> v in was && v !in now { Ordering.MissingMember(was, now, v); }
      if removed != [] { assert removed[0] in removed; }
    }
  }

  lemma PropertySilent(where: string, name: string, before: Object, after: Object)
    ensures PropertyRequestBreaks(where, name, before, after) == multiset{}
      <==> KeepsValues(before, after) && !TypeChanged(before, after)
  {
    NothingRemoved(before, after);
    var removed := RemovedValues(before, after);
    var refused := Ordering.Map(Refusal(where, name), removed);
    assert multiset(refused) == multiset{} <==> removed == [] by {
      if removed != [] { assert refused[0] in multiset(refused); }
    }
  }

  lemma RequiredSilent(where: string, extra: set<string>)
    ensures NewlyRequired(where, extra) == multiset{} <==> extra == {}
  {
    if name :| name in extra {
      assert Break(where, NowRequired(name)) in NewlyRequired(where, extra);
    }
  }

  lemma NarrowingSilent(where: string, before: map<string, Object>, after: map<string, Object>)
    ensures Sum(before.Keys, RequestPart(where, before, after)) == multiset{}
      <==> forall name | name in before && name in after ::
             KeepsValues(before[name], after[name]) && !TypeChanged(before[name], after[name])
  {
    var part := RequestPart(where, before, after);
    SumEmpty(before.Keys, part);
    forall name | name in before && name in after
      ensures part(name) == multiset{} <==>
        KeepsValues(before[name], after[name]) && !TypeChanged(before[name], after[name])
    {
      PropertySilent(where, name, before[name], after[name]);
    }
  }

  lemma NothingNewlyRequired(where: string, was: set<string>, now: set<string>)
    ensures NewlyRequired(where, now - was) == multiset{} <==> now <= was
  {
    RequiredSilent(where, now - was);
    if now - was == {} {
      forall name | name in now ensures name in was { assert name !in now - was; }
    }
  }

  // The same on two schemas.
  lemma SchemasSilent(previous: Document, current: Document, where: string, was: Object, now: Object)
    ensures var p, q := Properties(previous, was), Properties(current, now);
      NewlyRequired(where, RequiredNames(now) - RequiredNames(was)) + Sum(p.Keys, RequestPart(where, p, q)) == multiset{}
      <==> RequestHolds(previous, current, was, now)
  {
    var p, q := Properties(previous, was), Properties(current, now);
    NothingNewlyRequired(where, RequiredNames(was), RequiredNames(now));
    NarrowingSilent(where, p, q);
    BothEmpty(NewlyRequired(where, RequiredNames(now) - RequiredNames(was)), Sum(p.Keys, RequestPart(where, p, q)));
  }

  lemma RequestSilent(previous: Document, current: Document, where: string, before: Object, after: Object)
    ensures RequestBreaks(previous, current, where, before, after) == multiset{}
      <==> (ResolvedBody(previous, before).Some? && ResolvedBody(current, after).Some? ==>
            RequestHolds(previous, current, ResolvedBody(previous, before).value, ResolvedBody(current, after).value))
  {
    if ResolvedBody(previous, before).Some? && ResolvedBody(current, after).Some? {
      SchemasSilent(previous, current, where, ResolvedBody(previous, before).value, ResolvedBody(current, after).value);
    }
  }

  lemma BothEmpty<T>(a: multiset<T>, b: multiset<T>)
    ensures a + b == multiset{} <==> a == multiset{} && b == multiset{}
  {
    if a + b == multiset{} {
      forall x ensures a[x] == 0 && b[x] == 0 { assert (a + b)[x] == a[x] + b[x]; }
    }
  }

  lemma GuaranteesSilent(where: string, names: set<string>, after: map<string, Object>, required: set<string>)
    ensures Sum(names, GuaranteePart(where, after, required)) == multiset{}
      <==> forall name | name in names :: name in after && name in required
  {
    var part := GuaranteePart(where, after, required);
    SumEmpty(names, part);
    forall name ensures part(name) == multiset{} <==> name in after && name in required {}
  }

  lemma RetypesSilent(where: string, before: map<string, Object>, after: map<string, Object>)
    ensures Sum(before.Keys, ResponseTypePart(where, before, after)) == multiset{}
      <==> forall name | name in before && name in after :: !TypeChanged(before[name], after[name])
  {
    var part := ResponseTypePart(where, before, after);
    SumEmpty(before.Keys, part);
    forall name | name in before
      ensures part(name) == multiset{} <==> !(name in after && TypeChanged(before[name], after[name])) {}
  }

  lemma BodySilent(previous: Document, current: Document, where: string, was: Object, now: Object)
    ensures BodyBreaks(previous, current, where, was, now) == multiset{} <==> BodyHolds(previous, current, was, now)
  {
    var before, after := Properties(previous, was), Properties(current, now);
    GuaranteesSilent(where, RequiredNames(was), after, RequiredNames(now));
    RetypesSilent(where, before, after);
    BothEmpty(Sum(RequiredNames(was), GuaranteePart(where, after, RequiredNames(now))),
              Sum(before.Keys, ResponseTypePart(where, before, after)));
  }

  lemma ResponsesSilent(previous: Document, current: Document, where: string, before: Object, after: Object)
    ensures ResponseBreaks(previous, current, where, before, after) == multiset{}
      <==> (MapAt(before, "responses").Some? && MapAt(after, "responses").Some? ==>
            forall status | status in MapAt(before, "responses").value ::
              StatusHolds(previous, current, MapAt(before, "responses").value, MapAt(after, "responses").value, status))
  {
    if MapAt(before, "responses").Some? && MapAt(after, "responses").Some? {
      var was, now := MapAt(before, "responses").value, MapAt(after, "responses").value;
      var part := StatusPart(previous, current, where, was, now);
      SumEmpty(was.Keys, part);
      forall status | status in was
        ensures part(status) == multiset{} <==> StatusHolds(previous, current, was, now, status)
      {
        if MapAt(was, status).Some? && MapAt(now, status).Some? {
          var s, t := ResolvedBody(previous, MapAt(was, status).value), ResolvedBody(current, MapAt(now, status).value);
          if s.Some? && t.Some? {
            BodySilent(previous, current, where, s.value, t.value);
          }
        }
      }
    }
  }

  lemma OperationSilent(
      previous: Document, current: Document, path: string, before: Object, after: Object, verb: string)
    ensures OperationBreaks(previous, current, path, before, after, verb) == multiset{}
      <==> VerbHolds(previous, current, before, after, verb)
  {
    if MapAt(before, verb).Some? && MapAt(after, verb).Some? {
      var where := OperationName(verb, path);
      var o, r := MapAt(before, verb).value, MapAt(after, verb).value;
      RequestSilent(previous, current, where, o, r);
      ResponsesSilent(previous, current, where, o, r);
      BothEmpty(RequestBreaks(previous, current, where, o, r), ResponseBreaks(previous, current, where, o, r));
    }
  }

  lemma {:induction false} OperationsSilent(
      previous: Document, current: Document, path: string, before: Object, after: Object, count: nat)
    requires count <= |METHODS|
    ensures OperationsBreaks(previous, current, path, before, after, count) == multiset{}
      <==> forall i | 0 <= i < count :: VerbHolds(previous, current, before, after, METHODS[i])
    decreases count
  {
    if count > 0 {
      OperationsSilent(previous, current, path, before, after, count - 1);
      OperationSilent(previous, current, path, before, after, METHODS[count - 1]);
      BothEmpty(OperationsBreaks(previous, current, path, before, after, count - 1),
                OperationBreaks(previous, current, path, before, after, METHODS[count - 1]));
    }
  }

  // The gate reports nothing exactly when every path, operation, request and
  // successful response of the old document holds up in the new one.
  lemma SilentExactlyWhenItHolds(previous: Document, current: Document)
    ensures AllBreaks(previous, current) == multiset{} <==> Holds(previous, current)
  {
    var part := PathPart(previous, current);
    SumEmpty(Paths(previous).Keys, part);
    forall path | path in Paths(previous)
      ensures part(path) == multiset{} <==>
        && path in Paths(current)
        && forall verb | verb in METHODS ::
             VerbHolds(previous, current, Paths(previous)[path], Paths(current)[path], verb)
    {
      if path in Paths(current) {
        OperationsSilent(previous, current, path, Paths(previous)[path], Paths(current)[path], |METHODS|);
      }
    }
  }

  // ----------------------------------------------------------- reflexivity

  // Every success body whose schema resolves declares what it requires.
  ghost predicate DeclaresWhatItRequires(d: Document) {
    forall path, verb, status |
      && path in Paths(d) && verb in METHODS && IsSuccess(status)
      && SuccessBody(d, path, verb, status).Some? ::
      RequiredNames(SuccessBody(d, path, verb, status).value)
        <= Properties(d, SuccessBody(d, path, verb, status).value).Keys
  }

  // The resolved schema of one response, when the document has it.
  ghost function SuccessBody(d: Document, path: string, verb: string, status: string): Option<Object> {
    if path !in Paths(d) then None
    else
      var response := MapIn(MapIn(MapAt(Paths(d)[path], verb), "responses"), status);
      if response.None? then None else ResolvedBody(d, response.value)
  }

  // A document compared with itself is reported exactly when some successful
  // response requires a name it does not declare, or whose reference is broken.
  lemma ReflexiveExactlyWhenDeclared(d: Document)
    ensures AllBreaks(d, d) == multiset{} <==> DeclaresWhatItRequires(d)
  {
    SilentExactlyWhenItHolds(d, d);
    if Holds(d, d) {
      forall path, verb, status |
        && path in Paths(d) && verb in METHODS && IsSuccess(status)
        && SuccessBody(d, path, verb, status).Some?
        ensures RequiredNames(SuccessBody(d, path, verb, status).value)
          <= Properties(d, SuccessBody(d, path, verb, status).value).Keys
      {
        assert VerbHolds(d, d, Paths(d)[path], Paths(d)[path], verb);
        var responses := MapIn(MapAt(Paths(d)[path], verb), "responses").value;
        assert StatusHolds(d, d, responses, responses, status);
      }
    }
    if DeclaresWhatItRequires(d) {
      forall path, verb | path in Paths(d) && verb in METHODS
        ensures VerbHolds(d, d, Paths(d)[path], Paths(d)[path], verb)
      {
        if MapAt(Paths(d)[path], verb).Some? {
          SelfOperationHolds(d, path, verb);
        }
      }
    }
  }

  lemma SelfOperationHolds(d: Document, path: string, verb: string)
    requires DeclaresWhatItRequires(d) && path in Paths(d) && verb in METHODS
    requires MapAt(Paths(d)[path], verb).Some?
    ensures OperationHolds(d, d, MapAt(Paths(d)[path], verb).value, MapAt(Paths(d)[path], verb).value)
  {
    var operation := MapAt(Paths(d)[path], verb).value;
    if MapAt(operation, "responses").Some? {
      var responses := MapAt(operation, "responses").value;
      forall status | status in responses ensures StatusHolds(d, d, responses, responses, status) {
        if IsSuccess(status) && MapAt(responses, status).Some? {
          assert SuccessBody(d, path, verb, status) == ResolvedBody(d, MapAt(responses, status).value);
        }
      }
    }
  }
}
