/**
 * tools/apicompat/document.go: how the gate reads an OpenAPI document.
 *
 * A parsed document is a tree of untyped nodes, so every misshapen branch the
 * code steps around is a branch here too.
 */
module Documents {
  import opened Wrappers
  import Ordering

  // A decoded YAML node. What fmt.Sprint prints for anything but a string is
  // carried along, because the gate compares enum values by that form.
  datatype Node =
    | Text(value: string)
    | Scalar(shown: string)
    | List(items: seq<Node>, shown: string)
    | Table(fields: Object, shown: string)

  type Object = map<string, Node>

  datatype Document = Document(raw: Object)

  function Printed(node: Node): string {
    if node.Text? then node.value else node.shown
  }

  function MapAt(node: Object, key: string): Option<Object> {
    if key in node && node[key].Table? then Some(node[key].fields) else None
  }

  function MapIn(node: Option<Object>, key: string): Option<Object> {
    if node.None? then None else MapAt(node.value, key)
  }

  // The entries of a node that are themselves maps.
  function Tables(node: Object): map<string, Object> {
    map key | key in node && node[key].Table? :: node[key].fields
  }

  // ---------------------------------------------------------------- paths

  function Paths(d: Document): map<string, Object> {
    match MapAt(d.raw, "paths")
    case None => map[]
    case Some(raw) => Tables(raw)
  }

  method ReadTables(raw: Object) returns (found: map<string, Object>)
    ensures found == Tables(raw)
  {
    found := map[];
    var todo := raw.Keys;
    while todo != {}
      invariant todo <= raw.Keys
      invariant found == (map key | key in raw && key !in todo && raw[key].Table? :: raw[key].fields)
    {
      var key :| key in todo;
      if raw[key].Table? {
        found := found[key := raw[key].fields];
      }
      todo := todo - {key};
    }
  }

  method ReadPaths(d: Document) returns (found: map<string, Object>)
    ensures found == Paths(d)
  {
    found := map[];
    var raw := MapAt(d.raw, "paths");
    if raw.Some? {
      found := ReadTables(raw.value);
    }
  }

  // ----------------------------------------------------------- references

  const PREFIX := "#/components/schemas/"

  const MAX_DEPTH := 8

  function Components(d: Document): Option<Object> {
    MapIn(MapAt(d.raw, "components"), "schemas")
  }

  function RefOf(schema: Object): Option<string> {
    if "$ref" in schema && schema["$ref"].Text? then Some(schema["$ref"].value) else None
  }

  // The schema a reference names, or nothing when it is not local or dangles.
  function Hop(d: Document, ref: string): Option<Object> {
    if PREFIX <= ref then MapIn(Components(d), ref[|PREFIX|..]) else None
  }

  // Where k hops along $ref lead from a schema; nothing once the chain has
  // ended or broken. There is no bound here.
  ghost function After(d: Document, schema: Option<Object>, k: nat): Option<Object>
    decreases k
  {
    if schema.None? || k == 0 then schema
    else if RefOf(schema.value).None? then None
    else After(d, Hop(d, RefOf(schema.value).value), k - 1)
  }

  // The chain from schema ends after exactly k hops, at a schema that is not a
  // reference.
  ghost predicate EndsAt(d: Document, schema: Option<Object>, k: nat, end: Object) {
    After(d, schema, k) == Some(end) && RefOf(end).None?
  }

  function ResolveWithin(d: Document, schema: Option<Object>, depth: nat): Option<Object>
    decreases depth
  {
    if depth == 0 || schema.None? then None
    else if RefOf(schema.value).None? then schema
    else ResolveWithin(d, Hop(d, RefOf(schema.value).value), depth - 1)
  }

  function Resolved(d: Document, schema: Option<Object>): Option<Object> {
    ResolveWithin(d, schema, MAX_DEPTH)
  }

  method Resolve(d: Document, schema: Option<Object>) returns (r: Option<Object>)
    ensures r == Resolved(d, schema)
  {
    var at := schema;
    for depth := 0 to MAX_DEPTH
      invariant Resolved(d, schema) == ResolveWithin(d, at, MAX_DEPTH - depth)
    {
      if at.None? { return None; }
      var ref := RefOf(at.value);
      if ref.None? { return at; }
      if !(PREFIX <= ref.value) { return None; }
      var components := MapAt(d.raw, "components");
      if components.None? { return None; }
      var schemas := MapAt(components.value, "schemas");
      if schemas.None? { return None; }
      var next := MapAt(schemas.value, ref.value[|PREFIX|..]);
      if next.None? { return None; }
      at := next;
    }
    return None;
  }

  lemma {:induction false} WithinIsBoundedChase(d: Document, schema: Option<Object>, depth: nat, end: Object)
    ensures ResolveWithin(d, schema, depth) == Some(end)
      <==> exists k: nat :: k < depth && EndsAt(d, schema, k, end)
    decreases depth
  {
    if depth == 0 || schema.None? {
      forall k: nat | schema.None? ensures After(d, schema, k) == None {}
    } else if RefOf(schema.value).None? {
      forall k: nat | EndsAt(d, schema, k, end) ensures k == 0 {}
      if schema.value == end { assert EndsAt(d, schema, 0, end); }
    } else {
      var next := Hop(d, RefOf(schema.value).value);
      WithinIsBoundedChase(d, next, depth - 1, end);
      if k: nat :| k < depth && EndsAt(d, schema, k, end) {
        assert k > 0 && EndsAt(d, next, k - 1, end);
      }
      if k: nat :| k < depth - 1 && EndsAt(d, next, k, end) {
        assert EndsAt(d, schema, k + 1, end);
      }
    }
  }

  // Bounded resolution is unbounded chasing on chains of at most seven hops.
  lemma ResolveIsChaseWithinSevenHops(d: Document, schema: Option<Object>, end: Object)
    ensures Resolved(d, schema) == Some(end) <==> exists k: nat :: k <= 7 && EndsAt(d, schema, k, end)
  {
    WithinIsBoundedChase(d, schema, MAX_DEPTH, end);
    if k: nat :| k < MAX_DEPTH && EndsAt(d, schema, k, end) { assert k <= 7; }
    if k: nat :| k <= 7 && EndsAt(d, schema, k, end) { assert k < MAX_DEPTH; }
  }

  // A longer chain is given up on, although it ends.
  lemma LongChainsAreGivenUp(d: Document, schema: Option<Object>, k: nat, end: Object)
    requires EndsAt(d, schema, k, end) && k > 7
    ensures Resolved(d, schema) == None
  {
    if Resolved(d, schema).Some? {
      var other := Resolved(d, schema).value;
      ResolveIsChaseWithinSevenHops(d, schema, other);
      var j: nat :| j <= 7 && EndsAt(d, schema, j, other);
      AfterNothing(d, schema, j, k);
    }
  }

  // What resolves is never a reference, so resolving it again changes nothing.
  lemma ResolveIsIdempotent(d: Document, schema: Option<Object>)
    ensures Resolved(d, schema).Some? ==> RefOf(Resolved(d, schema).value).None?
    ensures Resolved(d, Resolved(d, schema)) == Resolved(d, schema)
  {
    if Resolved(d, schema).Some? {
      WithinIsBoundedChase(d, schema, MAX_DEPTH, Resolved(d, schema).value);
    }
  }

  // ------------------------------------------------- how a chain can fail

  ghost predicate IsReference(schema: Option<Object>) {
    schema.Some? && RefOf(schema.value).Some?
  }

  // The chain comes back to a reference it has already followed.
  ghost predicate Cyclic(d: Document, schema: Option<Object>) {
    exists i: nat, j: nat :: i < j && Repeats(d, schema, i, j)
  }

  ghost predicate Repeats(d: Document, schema: Option<Object>, i: nat, j: nat) {
    && IsReference(After(d, schema, i)) && IsReference(After(d, schema, j))
    && RefAt(d, schema, i) == RefAt(d, schema, j)
  }

  // The chain reaches a reference that is not local or names nothing, or was
  // missing from the start.
  ghost predicate Broken(d: Document, schema: Option<Object>) {
    || schema.None?
    || exists k: nat :: IsReference(After(d, schema, k)) && Hop(d, RefAt(d, schema, k)) == None
  }

  ghost function RefAt(d: Document, schema: Option<Object>, k: nat): string {
    if IsReference(After(d, schema, k)) then RefOf(After(d, schema, k).value).value else ""
  }

  lemma {:induction false} AfterStep(d: Document, schema: Option<Object>, k: nat)
    ensures After(d, schema, k + 1) ==
      if IsReference(After(d, schema, k)) then Hop(d, RefAt(d, schema, k)) else None
    decreases k
  {
    if schema.Some? && RefOf(schema.value).Some? && k > 0 {
      AfterStep(d, Hop(d, RefOf(schema.value).value), k - 1);
    }
  }

  lemma {:induction false} AfterNothing(d: Document, schema: Option<Object>, k: nat, later: nat)
    requires k < later && !IsReference(After(d, schema, k))
    ensures After(d, schema, later) == None
    decreases later
  {
    AfterStep(d, schema, later - 1);
    if k < later - 1 {
      AfterNothing(d, schema, k, later - 1);
    }
  }

  // A chain that repeats a reference goes round for ever: it never ends, and
  // never breaks either.
  lemma {:induction false} CycleNeverLeaves(d: Document, schema: Option<Object>, i: nat, j: nat, k: nat)
    requires i < j && Repeats(d, schema, i, j)
    ensures IsReference(After(d, schema, k))
    decreases k
  {
    if k > j {
      CycleNeverLeaves(d, schema, i, j, k - 1);
      CycleShift(d, schema, i, j, k - j);
      CycleNeverLeaves(d, schema, i, j, i + (k - j));
    } else if k < j {
      if !IsReference(After(d, schema, k)) {
        AfterNothing(d, schema, k, j);
      }
    }
  }

  lemma {:induction false} CycleShift(d: Document, schema: Option<Object>, i: nat, j: nat, m: nat)
    requires m > 0 && Repeats(d, schema, i, j)
    ensures After(d, schema, i + m) == After(d, schema, j + m)
    decreases m
  {
    if m == 1 {
      AfterStep(d, schema, i);
      AfterStep(d, schema, j);
    } else {
      CycleShift(d, schema, i, j, m - 1);
      AfterStep(d, schema, i + m - 1);
      AfterStep(d, schema, j + m - 1);
    }
  }

  // The component a local reference names.
  function Target(ref: string): string {
    if PREFIX <= ref then ref[|PREFIX|..] else ""
  }

  lemma {:induction false} DistinctWithin<T>(s: seq<T>, all: set<T>)
    requires forall i, j | 0 <= i < j < |s| :: s[i] != s[j]
    requires forall x | x in s :: x in all
    ensures |s| <= |all|
    decreases |s|
  {
    if s != [] {
      assert forall x | x in s[1..] :: x in all - {s[0]};
      DistinctWithin(s[1..], all - {s[0]});
    }
  }

  // A chain with no repeat that gets through n hops names n component schemas.
  lemma HopsNeedComponents(d: Document, schema: Option<Object>, n: nat, components: Object)
    requires Components(d) == Some(components)
    requires forall i: nat, j: nat | i < j < n :: RefAt(d, schema, i) != RefAt(d, schema, j)
    requires forall k: nat | k < n :: IsReference(After(d, schema, k)) && Hop(d, RefAt(d, schema, k)).Some?
    ensures n <= |components|
  {
    var names := seq(n, k requires 0 <= k < n => Target(RefAt(d, schema, k)));
    forall i, j | 0 <= i < j < n ensures names[i] != names[j] {
      var a, b := RefAt(d, schema, i), RefAt(d, schema, j);
      assert PREFIX <= a && PREFIX <= b && a != b;
      assert a == PREFIX + Target(a) && b == PREFIX + Target(b);
    }
    forall x | x in names ensures x in components.Keys {
      var k :| 0 <= k < n && names[k] == x;
      assert Hop(d, RefAt(d, schema, k)).Some?;
    }
    DistinctWithin(names, components.Keys);
  }

  // With at most seven component schemas the bound is never what stops a
  // chain: nothing resolves exactly when the chain is cyclic, dangling or not
  // local.
  lemma ResolveFailsOnlyOnBadChains(d: Document, schema: Option<Object>)
    requires Components(d).Some? ==> |Components(d).value| <= 7
    ensures Resolved(d, schema) == None <==> Cyclic(d, schema) || Broken(d, schema)
  {
    if Resolved(d, schema).Some? {
      var end := Resolved(d, schema).value;
      WithinIsBoundedChase(d, schema, MAX_DEPTH, end);
      var k: nat :| k < MAX_DEPTH && EndsAt(d, schema, k, end);
      EndedChainIsSound(d, schema, k, end);
    } else if !Cyclic(d, schema) && !Broken(d, schema) {
      GoodChainRunsOn(d, schema, 8);
      var components := Components(d);
      assert Hop(d, RefAt(d, schema, 0)).Some?;
      HopsNeedComponents(d, schema, 8, components.value);
      assert false;
    }
  }

  lemma EndedChainIsSound(d: Document, schema: Option<Object>, k: nat, end: Object)
    requires EndsAt(d, schema, k, end)
    ensures !Cyclic(d, schema) && !Broken(d, schema)
  {
    if Cyclic(d, schema) {
      var i: nat, j: nat :| i < j && Repeats(d, schema, i, j);
      CycleNeverLeaves(d, schema, i, j, k);
    }
    if m: nat :| IsReference(After(d, schema, m)) && Hop(d, RefAt(d, schema, m)) == None {
      AfterStep(d, schema, m);
      if k <= m {
        if k < m { AfterNothing(d, schema, k, m); }
      } else if m + 1 < k {
        AfterNothing(d, schema, m + 1, k);
      }
    }
  }

  // A chain that neither repeats nor breaks, and has not ended within eight
  // looks, is still on a reference at every one of them.
  lemma {:induction false} GoodChainRunsOn(d: Document, schema: Option<Object>, n: nat)
    requires n <= MAX_DEPTH && Resolved(d, schema) == None && !Cyclic(d, schema) && !Broken(d, schema)
    ensures forall k: nat | k < n :: IsReference(After(d, schema, k)) && Hop(d, RefAt(d, schema, k)).Some?
    ensures forall i: nat, j: nat | i < j < n :: RefAt(d, schema, i) != RefAt(d, schema, j)
    decreases n
  {
    if n > 0 {
      GoodChainRunsOn(d, schema, n - 1);
      var last := n - 1;
      if last > 0 { AfterStep(d, schema, last - 1); }
      assert After(d, schema, last).Some?;
      if !IsReference(After(d, schema, last)) {
        var end := After(d, schema, last).value;
        assert EndsAt(d, schema, last, end);
        WithinIsBoundedChase(d, schema, MAX_DEPTH, end);
        assert false;
      }
      forall i: nat | i < last ensures RefAt(d, schema, i) != RefAt(d, schema, last) {
        assert !Repeats(d, schema, i, last);
      }
    }
  }

  // --------------------------------------------------------- body schemas

  function Content(node: Object): Option<Object> {
    if MapAt(node, "content").Some? then MapAt(node, "content")
    else MapIn(MapAt(node, "requestBody"), "content")
  }

  function BodySchema(node: Object): Option<Object> {
    MapIn(MapIn(Content(node), "application/json"), "schema")
  }

  // The schema a request or a response is checked against, as the gate sees it.
  function ResolvedBody(d: Document, node: Object): Option<Object> {
    Resolved(d, BodySchema(node))
  }

  // ------------------------------------------------- reading one schema

  // What a schema declares under properties, before references are followed.
  function Declared(schema: Object): map<string, Object> {
    match MapAt(schema, "properties")
    case None => map[]
    case Some(raw) => Tables(raw)
  }

  function Properties(d: Document, schema: Object): map<string, Object> {
    var declared := Declared(schema);
    map name | name in declared && Resolved(d, Some(declared[name])).Some?
      :: Resolved(d, Some(declared[name])).value
  }

  method ReadProperties(d: Document, schema: Object) returns (found: map<string, Object>)
    ensures found == Properties(d, schema)
  {
    found := map[];
    var raw := MapAt(schema, "properties");
    if raw.None? { return; }
    ghost var declared := Declared(schema);
    var todo := raw.value.Keys;
    while todo != {}
      invariant todo <= raw.value.Keys
      invariant found == (map name | name in declared && name !in todo
        && Resolved(d, Some(declared[name])).Some? :: Resolved(d, Some(declared[name])).value)
    {
      var name :| name in todo;
      todo := todo - {name};
      if !raw.value[name].Table? { continue; }
      var resolved := Resolve(d, Some(raw.value[name].fields));
      if resolved.Some? {
        found := found[name := resolved.value];
      }
    }
  }

  function RequiredNames(schema: Object): set<string> {
    if "required" in schema && schema["required"].List? then TextsOf(schema["required"].items) else {}
  }

  function TextsOf(items: seq<Node>): set<string> {
    set item | item in items && item.Text? :: item.value
  }

  method ReadRequiredNames(schema: Object) returns (names: set<string>)
    ensures names == RequiredNames(schema)
  {
    names := {};
    if !("required" in schema && schema["required"].List?) { return; }
    var items := schema["required"].items;
    for i := 0 to |items|
      invariant names == TextsOf(items[..i])
    {
      assert items[..i + 1] == items[..i] + [items[i]];
      if items[i].Text? { names := names + {items[i].value}; }
    }
    assert items[..|items|] == items;
  }

  // The enum's values by their printed form; absent when there is no list.
  function EnumOf(schema: Object): Option<seq<string>> {
    if "enum" in schema && schema["enum"].List?
    then Some(PrintedAll(schema["enum"].items)) else None
  }

  function PrintedAll(items: seq<Node>): (r: seq<string>)
    ensures |r| == |items|
  {
    seq(|items|, i requires 0 <= i < |items| => Printed(items[i]))
  }

  function RemovedValues(before: Object, after: Object): seq<string> {
    match (EnumOf(before), EnumOf(after))
    case (Some(was), Some(now)) => if now == [] then [] else Ordering.Missing(was, now)
    case _ => []
  }

  method ReadRemovedValues(before: Object, after: Object) returns (removed: seq<string>)
    ensures multiset(removed) == multiset(RemovedValues(before, after))
    ensures Ordering.SortedBy(Ordering.StringLess, removed)
  {
    removed := [];
    if !("enum" in before && before["enum"].List?) { return; }
    var beforeValues := before["enum"].items;
    var afterValues := if "enum" in after && after["enum"].List? then after["enum"].items else [];
    var still: set<string> := {};
    for i := 0 to |afterValues|
      invariant forall v :: v in still <==> exists k :: 0 <= k < i && Printed(afterValues[k]) == v
    {
      still := still + {Printed(afterValues[i])};
    }
    if |afterValues| == 0 { return; }
    ghost var was, now := PrintedAll(beforeValues), PrintedAll(afterValues);
    forall v ensures v in still <==> v in now {
      if v in now {
        var k :| 0 <= k < |now| && now[k] == v;
        assert Printed(afterValues[k]) == v;
      }
      if k :| 0 <= k < |afterValues| && Printed(afterValues[k]) == v { assert now[k] == v; }
    }
    for i := 0 to |beforeValues|
      invariant removed == Ordering.Missing(was[..i], now)
    {
      assert was[..i + 1] == was[..i] + [was[i]];
      Ordering.MissingAppend(was[..i], was[i], now);
      if Printed(beforeValues[i]) !in still {
        removed := removed + [Printed(beforeValues[i])];
      }
    }
    assert was[..|beforeValues|] == was;
    removed := Ordering.SortStrings(removed);
  }

  function TypeName(schema: Object): string {
    if "type" in schema && schema["type"].Text? then schema["type"].value else ""
  }

  predicate TypeChanged(before: Object, after: Object) {
    TypeName(before) != "" && TypeName(after) != "" && TypeName(before) != TypeName(after)
  }
}
