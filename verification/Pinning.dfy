/**
 * What a session is bound to: the artifacts a campaign freezes when it opens
 * (cmd/api/recruiting_adapter.go, internal/recruiting/campaign.go) and the pins
 * the composer sends for a session (cmd/worker/composer.go).
 */
module Pinning {
  import opened Wrappers
  import opened ArtifactRegistry

  const PRACTICE := "practice"
  const SCREENING := "screening"
  const RUBRIC := "rubric"
  const PLAN := "plan"
  const POLICY := "model_policy"
  const PRACTICE_RUBRIC := "rubric/practice-default"
  const PRACTICE_POLICY := "policy/practice-default"

  // The kinds a campaign must pin before it may open, in the order they are resolved.
  const REQUIRED := ["rubric", "calibration", "persona", "plan"]

  // ------------------------------------------------------ opening a campaign

  datatype CampaignStatus = Unopened | Open | Closed

  // What one pin of a campaign keeps; the kind it was pinned as is its key.
  datatype Frozen = Frozen(reference: string, version: string, digest: string)

  datatype Campaign = Campaign(tenant: string, status: CampaignStatus, pins: map<string, Frozen>)

  datatype PinRequest = PinRequest(kind: string, reference: string)

  datatype OpeningError =
    | NotDraft
    | NoDetermination
    | DuplicateArtifact(kind: string)
    | IncompleteConfiguration(kind: string)
    | NotPublished(reference: string)

  function FrozenAs(a: Artifact): Frozen {
    Frozen(a.reference, a.version, a.digest)
  }

  function PublishedArtifact(r: Registry, reference: string, tenant: string): Option<Artifact> {
    match Resolve(r, reference, tenant)
    case None => None
    case Some(a) => if a.status == Published then Some(a) else None
  }

  predicate Requests(requests: seq<PinRequest>, kind: string) {
    exists i :: 0 <= i < |requests| && requests[i].kind == kind
  }

  function ReferenceFor(requests: seq<PinRequest>, kind: string): string
    requires Requests(requests, kind)
  {
    if requests[0].kind == kind then requests[0].reference else ReferenceFor(requests[1..], kind)
  }

  // The first kind that is asked for a second time.
  function Repeated(requests: seq<PinRequest>): Option<string> {
    if requests == [] then None
    else
      var last := |requests| - 1;
      match Repeated(requests[..last])
      case Some(kind) => Some(kind)
      case None => if Requests(requests[..last], requests[last].kind) then Some(requests[last].kind) else None
  }

  function Unasked(kinds: seq<string>, requests: seq<PinRequest>): Option<string> {
    if kinds == [] then None
    else if !Requests(requests, kinds[0]) then Some(kinds[0])
    else Unasked(kinds[1..], requests)
  }

  function Freeze(r: Registry, tenant: string, kinds: seq<string>, requests: seq<PinRequest>)
    : Result<map<string, Frozen>, OpeningError>
    requires forall kind | kind in kinds :: Requests(requests, kind)
  {
    if kinds == [] then Ok(map[])
    else
      var last := kinds[|kinds| - 1];
      match Freeze(r, tenant, kinds[..|kinds| - 1], requests)
      case Err(e) => Err(e)
      case Ok(pins) =>
        match PublishedArtifact(r, ReferenceFor(requests, last), tenant)
        case None => Err(NotPublished(ReferenceFor(requests, last)))
        case Some(a) => Ok(pins[last := FrozenAs(a)])
  }

  function Opening(r: Registry, tenant: string, status: CampaignStatus, determined: bool, requests: seq<PinRequest>)
    : Result<map<string, Frozen>, OpeningError>
  {
    if status != Unopened then Err(NotDraft)
    else if !determined then Err(NoDetermination)
    else if Repeated(requests).Some? then Err(DuplicateArtifact(Repeated(requests).value))
    else if Unasked(REQUIRED, requests).Some? then Err(IncompleteConfiguration(Unasked(REQUIRED, requests).value))
    else
      NothingUnasked(REQUIRED, requests);
      Freeze(r, tenant, REQUIRED, requests)
  }

  lemma {:induction false} NothingUnasked(kinds: seq<string>, requests: seq<PinRequest>)
    ensures Unasked(kinds, requests).None? <==> forall kind | kind in kinds :: Requests(requests, kind)
  {
    if kinds != [] {
      assert kinds == [kinds[0]] + kinds[1..];
      NothingUnasked(kinds[1..], requests);
    }
  }

  // The requests by kind, up to the first kind that comes twice.
  method ReadRequests(requests: seq<PinRequest>) returns (chosen: map<string, string>, twice: Option<string>)
    ensures twice == Repeated(requests)
    ensures twice.None? ==> forall kind :: kind in chosen <==> Requests(requests, kind)
    ensures twice.None? ==> forall kind | kind in chosen :: chosen[kind] == ReferenceFor(requests, kind)
  {
    chosen := map[];
    for i := 0 to |requests|
      invariant Repeated(requests[..i]).None?
      invariant forall kind :: kind in chosen <==> Requests(requests[..i], kind)
      invariant forall kind | kind in chosen :: chosen[kind] == ReferenceFor(requests[..i], kind)
    {
      var request := requests[i];
      assert requests[..i + 1][..i] == requests[..i];
      if request.kind in chosen {
        RepeatedStays(requests, i + 1);
        return chosen, Some(request.kind);
      }
      OneMoreRequest(requests[..i], request);
      assert requests[..i + 1] == requests[..i] + [request];
      chosen := chosen[request.kind := request.reference];
    }
    assert requests[..|requests|] == requests;
    return chosen, None;
  }

  method ResolveOpening(r: Registry, tenant: string, status: CampaignStatus, determined: bool, requests: seq<PinRequest>)
    returns (opening: Result<map<string, Frozen>, OpeningError>)
    ensures opening == Opening(r, tenant, status, determined, requests)
  {
    if status != Unopened { return Err(NotDraft); }
    if !determined { return Err(NoDetermination); }
    var chosen, twice := ReadRequests(requests);
    if twice.Some? { return Err(DuplicateArtifact(twice.value)); }
    for k := 0 to |REQUIRED|
      invariant Unasked(REQUIRED, requests) == Unasked(REQUIRED[k..], requests)
    {
      if REQUIRED[k] !in chosen { return Err(IncompleteConfiguration(REQUIRED[k])); }
      assert REQUIRED[k..][1..] == REQUIRED[k + 1..];
    }
    NothingUnasked(REQUIRED, requests);
    opening := FreezeChosen(r, tenant, REQUIRED, chosen, requests);
  }

  method FreezeChosen(
    r: Registry, tenant: string, kinds: seq<string>, chosen: map<string, string>, ghost requests: seq<PinRequest>)
    returns (opening: Result<map<string, Frozen>, OpeningError>)
    requires forall kind | kind in kinds :: Requests(requests, kind) && kind in chosen
    requires forall kind | kind in kinds :: chosen[kind] == ReferenceFor(requests, kind)
    ensures opening == Freeze(r, tenant, kinds, requests)
  {
    var pins: map<string, Frozen> := map[];
    for k := 0 to |kinds|
      invariant forall kind | kind in kinds[..k] :: kind in kinds
      invariant Freeze(r, tenant, kinds[..k], requests) == Ok(pins)
    {
      var kind := kinds[k];
      assert kinds[..k + 1][..k] == kinds[..k];
      var artifact := PublishedArtifact(r, chosen[kind], tenant);
      if artifact.None? {
        FreezeStops(r, tenant, kinds, requests, k + 1);
        return Err(NotPublished(chosen[kind]));
      }
      pins := pins[kind := FrozenAs(artifact.value)];
    }
    assert kinds[..|kinds|] == kinds;
    return Ok(pins);
  }

  lemma {:induction false} RepeatedStays(requests: seq<PinRequest>, n: nat)
    requires n <= |requests| && Repeated(requests[..n]).Some?
    ensures Repeated(requests) == Repeated(requests[..n])
    decreases |requests|
  {
    if n < |requests| {
      var front := requests[..|requests| - 1];
      assert front[..n] == requests[..n];
      RepeatedStays(front, n);
    } else {
      assert requests[..n] == requests;
    }
  }

  lemma {:induction false} FreezeStops(
    r: Registry, tenant: string, kinds: seq<string>, requests: seq<PinRequest>, n: nat)
    requires forall kind | kind in kinds :: Requests(requests, kind)
    requires n <= |kinds| && Freeze(r, tenant, kinds[..n], requests).Err?
    ensures Freeze(r, tenant, kinds, requests) == Freeze(r, tenant, kinds[..n], requests)
    decreases |kinds|
  {
    if n < |kinds| {
      var front := kinds[..|kinds| - 1];
      assert front[..n] == kinds[..n];
      FreezeStops(r, tenant, front, requests, n);
    } else {
      assert kinds[..n] == kinds;
    }
  }

  lemma {:induction false} OneMoreRequest(requests: seq<PinRequest>, last: PinRequest)
    requires !Requests(requests, last.kind)
    ensures forall kind :: Requests(requests + [last], kind) <==> Requests(requests, kind) || kind == last.kind
    ensures ReferenceFor(requests + [last], last.kind) == last.reference
    ensures forall kind | Requests(requests, kind) :: ReferenceFor(requests + [last], kind) == ReferenceFor(requests, kind)
  {
    var all := requests + [last];
    assert all[|requests|] == last;
    forall kind | Requests(requests, kind) ensures Requests(all, kind) {
      var i :| 0 <= i < |requests| && requests[i].kind == kind;
      assert all[i] == requests[i];
    }
    if requests != [] {
      assert all[1..] == requests[1..] + [last];
      assert !Requests(requests[1..], last.kind);
      OneMoreRequest(requests[1..], last);
      assert requests[0].kind != last.kind;
      forall kind | Requests(requests, kind)
        ensures ReferenceFor(all, kind) == ReferenceFor(requests, kind)
      {
        if requests[0].kind != kind {
          assert Requests(requests[1..], kind);
        }
      }
    }
  }

  ghost predicate OneOfAKind(requests: seq<PinRequest>) {
    forall i, j | 0 <= i < j < |requests| :: requests[i].kind != requests[j].kind
  }

  lemma {:induction false} RepeatedMeans(requests: seq<PinRequest>)
    ensures Repeated(requests).None? <==> OneOfAKind(requests)
    decreases |requests|
  {
    if requests != [] {
      var last := |requests| - 1;
      var front := requests[..last];
      RepeatedMeans(front);
      if Requests(front, requests[last].kind) {
        var i :| 0 <= i < last && front[i].kind == requests[last].kind;
        assert requests[i].kind == requests[last].kind;
      } else if OneOfAKind(front) {
        forall i, j | 0 <= i < j < |requests| ensures requests[i].kind != requests[j].kind {
          assert front[i].kind == requests[i].kind;
        }
      }
    }
  }

  lemma {:induction false} FreezeMeans(r: Registry, tenant: string, kinds: seq<string>, requests: seq<PinRequest>)
    requires forall kind | kind in kinds :: Requests(requests, kind)
    ensures var frozen := Freeze(r, tenant, kinds, requests);
      && (frozen.Ok? <==>
            forall kind | kind in kinds :: IsPublished(r, ReferenceFor(requests, kind), tenant))
      && (frozen.Ok? ==>
            && (forall kind :: kind in frozen.value <==> kind in kinds)
            && (forall kind | kind in kinds ::
                  frozen.value[kind] == FrozenAs(Resolve(r, ReferenceFor(requests, kind), tenant).value)))
    decreases |kinds|
  {
    if kinds != [] {
      var front, last := kinds[..|kinds| - 1], kinds[|kinds| - 1];
      FreezeMeans(r, tenant, front, requests);
      assert kinds == front + [last] && last in kinds;
      assert forall kind :: kind in kinds <==> kind in front || kind == last;
    }
  }

  lemma {:induction false} ReferenceIsTheOne(requests: seq<PinRequest>, i: nat)
    requires OneOfAKind(requests) && i < |requests|
    ensures Requests(requests, requests[i].kind)
    ensures ReferenceFor(requests, requests[i].kind) == requests[i].reference
  {
    if i > 0 {
      assert requests[0].kind != requests[i].kind;
      assert requests[1..][i - 1] == requests[i];
      forall a, b | 0 <= a < b < |requests[1..]| ensures requests[1..][a].kind != requests[1..][b].kind {
        assert requests[1..][a] == requests[a + 1] && requests[1..][b] == requests[b + 1];
      }
      ReferenceIsTheOne(requests[1..], i - 1);
    }
  }

  ghost predicate AskedAndPublished(r: Registry, tenant: string, requests: seq<PinRequest>, kind: string) {
    exists i :: 0 <= i < |requests| && requests[i].kind == kind && IsPublished(r, requests[i].reference, tenant)
  }

  predicate IsPublished(r: Registry, reference: string, tenant: string) {
    Resolve(r, reference, tenant).Some? && Resolve(r, reference, tenant).value.status == Published
  }

  lemma AskedMeans(r: Registry, tenant: string, requests: seq<PinRequest>)
    requires OneOfAKind(requests)
    ensures forall kind :: AskedAndPublished(r, tenant, requests, kind) <==>
      Requests(requests, kind) && IsPublished(r, ReferenceFor(requests, kind), tenant)
  {
    forall i | 0 <= i < |requests|
      ensures Requests(requests, requests[i].kind)
      ensures ReferenceFor(requests, requests[i].kind) == requests[i].reference
    {
      ReferenceIsTheOne(requests, i);
    }
  }

  // A campaign opens exactly when it is a draft, its jurisdiction is determined,
  // it asks for no kind twice, and each required kind is asked for and published;
  // and it then freezes what each of those references points at.
  lemma OpensExactlyWhen(
    r: Registry, tenant: string, status: CampaignStatus, determined: bool, requests: seq<PinRequest>)
    ensures var opening := Opening(r, tenant, status, determined, requests);
      && (opening.Ok? <==>
            && status == Unopened && determined && OneOfAKind(requests)
            && forall kind | kind in REQUIRED :: AskedAndPublished(r, tenant, requests, kind))
      && (opening.Ok? ==>
            && (forall kind :: kind in opening.value <==> kind in REQUIRED)
            && forall i | 0 <= i < |requests| && requests[i].kind in REQUIRED ::
                 && Resolve(r, requests[i].reference, tenant).Some?
                 && var a := Resolve(r, requests[i].reference, tenant).value;
                    opening.value[requests[i].kind] == Frozen(a.reference, a.version, a.digest))
  {
    RepeatedMeans(requests);
    NothingUnasked(REQUIRED, requests);
    if OneOfAKind(requests) {
      forall i | 0 <= i < |requests|
        ensures Requests(requests, requests[i].kind)
        ensures ReferenceFor(requests, requests[i].kind) == requests[i].reference
      {
        ReferenceIsTheOne(requests, i);
      }
      AskedMeans(r, tenant, requests);
      if forall kind | kind in REQUIRED :: Requests(requests, kind) {
        FreezeMeans(r, tenant, REQUIRED, requests);
      }
    }
  }

  // Which of the reasons is given: they are tried in this order, and the four kinds
  // in theirs.
  lemma RefusesInOrder(
    r: Registry, tenant: string, status: CampaignStatus, determined: bool, requests: seq<PinRequest>)
    ensures var opening := Opening(r, tenant, status, determined, requests);
      && (opening == Err(NotDraft) <==> status != Unopened)
      && (opening == Err(NoDetermination) <==> status == Unopened && !determined)
      && (opening.Err? && opening.error.DuplicateArtifact? <==> status == Unopened && determined && !OneOfAKind(requests))
      && (opening.Err? && opening.error.DuplicateArtifact? ==>
            exists i, j :: 0 <= i < j < |requests| && requests[i].kind == requests[j].kind == opening.error.kind
                           && OneOfAKind(requests[..j]))
      && (status == Unopened && determined && OneOfAKind(requests) ==>
            opening == FirstRefusal(r, tenant, requests, "rubric", "calibration", "persona", "plan", opening))
  {
    RepeatedMeans(requests);
    if Repeated(requests).Some? { var i, j := RepeatedIsTheFirst(requests); }
    if status == Unopened && determined && OneOfAKind(requests) { KindsInOrder(r, tenant, requests); }
  }

  // What four kinds are refused for, should they be: first those not asked for, then
  // those not published, each time in the order given.
  function FirstRefusal(
    r: Registry, tenant: string, requests: seq<PinRequest>, a: string, b: string, c: string, d: string,
    otherwise: Result<map<string, Frozen>, OpeningError>): Result<map<string, Frozen>, OpeningError>
  {
    if !Requests(requests, a) then Err(IncompleteConfiguration(a))
    else if !Requests(requests, b) then Err(IncompleteConfiguration(b))
    else if !Requests(requests, c) then Err(IncompleteConfiguration(c))
    else if !Requests(requests, d) then Err(IncompleteConfiguration(d))
    else if !IsPublished(r, ReferenceFor(requests, a), tenant) then Err(NotPublished(ReferenceFor(requests, a)))
    else if !IsPublished(r, ReferenceFor(requests, b), tenant) then Err(NotPublished(ReferenceFor(requests, b)))
    else if !IsPublished(r, ReferenceFor(requests, c), tenant) then Err(NotPublished(ReferenceFor(requests, c)))
    else if !IsPublished(r, ReferenceFor(requests, d), tenant) then Err(NotPublished(ReferenceFor(requests, d)))
    else otherwise
  }

  lemma KindsInOrder(r: Registry, tenant: string, requests: seq<PinRequest>)
    requires OneOfAKind(requests)
    ensures var opening := Opening(r, tenant, Unopened, true, requests);
      && opening == FirstRefusal(r, tenant, requests, "rubric", "calibration", "persona", "plan", opening)
      && (opening.Err? ==> opening.error.IncompleteConfiguration? || opening.error.NotPublished?)
  {
    RepeatedMeans(requests);
    FirstUnasked(requests);
    if Unasked(REQUIRED, requests).None? {
      NothingUnasked(REQUIRED, requests);
      FreezeInOrder(r, tenant, requests);
      FreezeLacksAVersion(r, tenant, REQUIRED, requests);
    }
  }

  lemma {:induction false} FreezeLacksAVersion(r: Registry, tenant: string, kinds: seq<string>, requests: seq<PinRequest>)
    requires forall kind | kind in kinds :: Requests(requests, kind)
    ensures Freeze(r, tenant, kinds, requests).Err? ==> Freeze(r, tenant, kinds, requests).error.NotPublished?
    decreases |kinds|
  {
    if kinds != [] { FreezeLacksAVersion(r, tenant, kinds[..|kinds| - 1], requests); }
  }

  lemma FirstUnasked(requests: seq<PinRequest>)
    ensures Unasked(REQUIRED, requests) ==
      if !Requests(requests, "rubric") then Some("rubric")
      else if !Requests(requests, "calibration") then Some("calibration")
      else if !Requests(requests, "persona") then Some("persona")
      else if !Requests(requests, "plan") then Some("plan")
      else None
  {
    UnaskedOfTwo("persona", "plan", requests);
    assert REQUIRED[1..] == ["calibration", "persona", "plan"] && REQUIRED[1..][1..] == ["persona", "plan"];
    assert Unasked(REQUIRED[1..], requests) ==
      if !Requests(requests, "calibration") then Some("calibration") else Unasked(["persona", "plan"], requests);
  }

  lemma UnaskedOfTwo(first: string, second: string, requests: seq<PinRequest>)
    ensures Unasked([first, second], requests) ==
      if !Requests(requests, first) then Some(first) else if !Requests(requests, second) then Some(second) else None
  {
    assert [first, second][1..] == [second] && [second][1..] == [];
    assert Unasked([second], requests) == if !Requests(requests, second) then Some(second) else None;
  }

  lemma FreezeInOrder(r: Registry, tenant: string, requests: seq<PinRequest>)
    requires forall kind | kind in REQUIRED :: Requests(requests, kind)
    ensures REQUIRED[0] in REQUIRED && REQUIRED[1] in REQUIRED && REQUIRED[2] in REQUIRED && REQUIRED[3] in REQUIRED
    ensures var opening := Freeze(r, tenant, REQUIRED, requests);
      opening == FirstRefusal(r, tenant, requests, "rubric", "calibration", "persona", "plan", opening)
  {
    FreezeOneMore(r, tenant, requests, 3);
    FreezeOneMore(r, tenant, requests, 2);
    FreezeOneMore(r, tenant, requests, 1);
    FreezeOneMore(r, tenant, requests, 0);
    assert REQUIRED[..4] == REQUIRED && REQUIRED[..0] == [];
  }

  lemma FreezeOneMore(r: Registry, tenant: string, requests: seq<PinRequest>, k: nat)
    requires k < 4 && forall kind | kind in REQUIRED :: Requests(requests, kind)
    ensures forall kind | kind in REQUIRED[..k] :: kind in REQUIRED
    ensures forall kind | kind in REQUIRED[..k + 1] :: kind in REQUIRED
    ensures var reference := ReferenceFor(requests, REQUIRED[k]);
      var before, after := Freeze(r, tenant, REQUIRED[..k], requests), Freeze(r, tenant, REQUIRED[..k + 1], requests);
      if before.Err? then after == before
      else if IsPublished(r, reference, tenant) then after.Ok? else after == Err(NotPublished(reference))
  {
    assert REQUIRED[..k + 1][..k] == REQUIRED[..k] && REQUIRED[..k + 1][k] == REQUIRED[k];
  }

  lemma {:induction false} RepeatedIsTheFirst(requests: seq<PinRequest>) returns (i: nat, j: nat)
    requires Repeated(requests).Some?
    ensures i < j < |requests| && requests[i].kind == requests[j].kind == Repeated(requests).value
    ensures OneOfAKind(requests[..j])
    decreases |requests|
  {
    var last := |requests| - 1;
    var front := requests[..last];
    if Repeated(front).Some? {
      i, j := RepeatedIsTheFirst(front);
      assert front[..j] == requests[..j];
    } else {
      RepeatedMeans(front);
      i :| 0 <= i < |front| && front[i].kind == requests[last].kind;
      j := last;
    }
  }

  // ------------------------------------------------- what a rollback leaves open

  // A reference that was rolled back may be pinned exactly when the version it was
  // rolled back to was not deprecated before.
  lemma RolledBackMayBePinnedExactlyWhen(r: Registry, id: nat)
    requires Sound(r) && Allowed(r, Rollback(id))
    ensures var r', a := Perform(r, Rollback(id)), r.rows[id];
      && Resolve(r', a.reference, a.tenant) == Some(a)
      && (IsPublished(r', a.reference, a.tenant) <==> a.status == Published)
  {
    RolledBackToIsCurrent(r, id);
  }

  // Two published versions of one reference, the later of them current.
  ghost predicate TwoPublished(r: Registry, earlier: nat, later: nat, reference: string, tenant: string) {
    && Sound(r) && earlier in r.rows && later in r.rows && earlier != later
    && r.rows[earlier].status == Published && r.rows[later].status == Published
    && r.rows[earlier].tenant == r.rows[later].tenant && r.rows[earlier].reference == r.rows[later].reference == reference
    && PointedAt(r, reference, tenant) == Some(later)
  }

  lemma OwnPointerLeads(r: Registry, earlier: nat, later: nat, reference: string, tenant: string)
    requires TwoPublished(r, earlier, later, reference, tenant)
    ensures (r.rows[later].tenant, reference) in r.pointers && r.pointers[(r.rows[later].tenant, reference)] == later
    ensures r.rows[later].tenant == tenant || (r.rows[later].tenant == "" && (tenant, reference) !in r.pointers)
  {
    var key := if (tenant, reference) in r.pointers then (tenant, reference) else ("", reference);
    assert PointerSound(r, key);
  }

  lemma BackAndForth(r: Registry, earlier: nat, later: nat, reference: string, tenant: string)
    requires TwoPublished(r, earlier, later, reference, tenant)
    ensures var back := Perform(r, Rollback(earlier));
      && Allowed(back, Rollback(later))
      && Resolve(Perform(back, Rollback(later)), reference, tenant) == Some(r.rows[later].(status := Deprecated))
  {
    OwnPointerLeads(r, earlier, later, reference, tenant);
    var back := Perform(r, Rollback(earlier));
    assert back.rows[later] == r.rows[later].(status := Deprecated);
  }

  // So rolling back from a version and forward to it again leaves it current, and yet
  // no campaign that gets it opens with it: it was deprecated on the way.
  lemma RollingForwardAgainOpensNothing(
    r: Registry, earlier: nat, later: nat, tenant: string, status: CampaignStatus, determined: bool,
    requests: seq<PinRequest>, i: nat)
    requires i < |requests| && requests[i].kind in REQUIRED
    requires TwoPublished(r, earlier, later, requests[i].reference, tenant)
    ensures var back := Perform(r, Rollback(earlier));
      && Allowed(back, Rollback(later))
      && var again := Perform(back, Rollback(later));
         && Resolve(again, requests[i].reference, tenant) == Some(r.rows[later].(status := Deprecated))
         && Opening(again, tenant, status, determined, requests).Err?
  {
    BackAndForth(r, earlier, later, requests[i].reference, tenant);
    var again := Perform(Perform(r, Rollback(earlier)), Rollback(later));
    NotPublishedOpensNothing(again, tenant, status, determined, requests, i);
  }

  lemma NotPublishedOpensNothing(
    r: Registry, tenant: string, status: CampaignStatus, determined: bool, requests: seq<PinRequest>, i: nat)
    requires i < |requests| && requests[i].kind in REQUIRED && !IsPublished(r, requests[i].reference, tenant)
    ensures Opening(r, tenant, status, determined, requests).Err?
  {
    OpensExactlyWhen(r, tenant, status, determined, requests);
  }
}
