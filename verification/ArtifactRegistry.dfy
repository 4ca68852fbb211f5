/**
 * The artifact registry (services/platform/internal/content): versions whose
 * content stands once released, and pointers that publication and rollback move.
 */
module ArtifactRegistry {
  import opened Wrappers

  datatype Status = Draft | Validating | Approved | Published | Deprecated | Retired

  // A platform artifact has no tenant, written "".
  datatype Artifact = Artifact(
    kind: string, reference: string, version: string, digest: string, body: string, tenant: string, status: Status)

  // A pointer is held for a tenant and a reference.
  datatype Registry = Registry(rows: map<nat, Artifact>, pointers: map<(string, string), nat>)

  const EMPTY := Registry(map[], map[])

  function NextStatuses(from: Status): set<Status> {
    match from
    case Draft => {Validating}
    case Validating => {Approved, Draft}
    case Approved => {Published}
    case Published => {Deprecated}
    case Deprecated => {Retired}
    case Retired => {}
  }

  predicate Released(status: Status) {
    status in {Published, Deprecated, Retired}
  }

  predicate Visible(a: Artifact, tenant: string) {
    a.tenant == "" || a.tenant == tenant
  }

  function PointedAt(r: Registry, reference: string, tenant: string): Option<nat> {
    if (tenant, reference) in r.pointers then Some(r.pointers[(tenant, reference)])
    else if ("", reference) in r.pointers then Some(r.pointers[("", reference)])
    else None
  }

  // What a reference currently points at: the tenant's own pointer before the
  // platform's.
  function Resolve(r: Registry, reference: string, tenant: string): Option<Artifact> {
    match PointedAt(r, reference, tenant)
    case None => None
    case Some(id) => if id in r.rows then Some(r.rows[id]) else None
  }

  predicate Bears(r: Registry, id: nat, digest: string, tenant: string) {
    id in r.rows && r.rows[id].digest == digest && Visible(r.rows[id], tenant)
  }

  predicate Held(r: Registry, digest: string, tenant: string) {
    exists id :: id in r.rows && Bears(r, id, digest, tenant)
  }

  // Reads some version bearing a digest. Which one, when several do, nothing
  // decides.
  method GetByDigest(r: Registry, digest: string, tenant: string) returns (a: Option<Artifact>, ghost id: nat)
    ensures a.Some? <==> Held(r, digest, tenant)
    ensures a.Some? ==> Bears(r, id, digest, tenant) && a.value == r.rows[id]
    ensures a.Some? ==> a.value.digest == digest && (a.value.tenant == "" || a.value.tenant == tenant)
    ensures a.None? ==> forall other | other in r.rows && r.rows[other].digest == digest ::
      r.rows[other].tenant != "" && r.rows[other].tenant != tenant
  {
    var ids := r.rows.Keys;
    while ids != {}
      invariant ids <= r.rows.Keys
      invariant forall other | other in r.rows.Keys - ids :: !Bears(r, other, digest, tenant)
      decreases |ids|
    {
      var next :| next in ids;
      if Bears(r, next, digest, tenant) { return Some(r.rows[next]), next; }
      ids := ids - {next};
    }
    return None, 0;
  }

  // -------------------------------------------------------------- operations

  datatype Operation =
    | CreateDraft(id: nat, draft: Artifact)
    | DeleteDraft(id: nat)
    | Advance(id: nat, to: Status)     // along the lifecycle, short of publication
    | Publish(id: nat)
    | Rollback(id: nat)                // to a version released before

  ghost predicate Allowed(r: Registry, op: Operation) {
    match op
    case CreateDraft(id, draft) =>
      && id !in r.rows && draft.status == Draft
      && (forall other | other in r.rows :: SameDigestSameBody(r.rows[other], draft))
      && (forall other | other in r.rows :: !SameVersion(r.rows[other], draft))
    case DeleteDraft(id) => id in r.rows && r.rows[id].status == Draft
    case Advance(id, to) => id in r.rows && to in NextStatuses(r.rows[id].status) && to != Published
    case Publish(id) => id in r.rows && r.rows[id].status == Approved
    case Rollback(id) => id in r.rows && r.rows[id].status in {Published, Deprecated}
  }

  // A digest is of one body only.
  ghost predicate SameDigestSameBody(a: Artifact, b: Artifact) {
    a.digest == b.digest ==> a.body == b.body
  }

  ghost predicate SameVersion(a: Artifact, b: Artifact) {
    a.tenant == b.tenant && a.reference == b.reference && a.version == b.version
  }

  function WithStatus(r: Registry, id: nat, status: Status): Registry
    requires id in r.rows
  {
    r.(rows := r.rows[id := r.rows[id].(status := status)])
  }

  function Pointed(r: Registry, id: nat): Registry
    requires id in r.rows
  {
    r.(pointers := r.pointers[(r.rows[id].tenant, r.rows[id].reference) := id])
  }

  // The version a rollback leaves, if it is a published one, is deprecated.
  function RolledFrom(r: Registry, id: nat): Registry
    requires id in r.rows
  {
    var current := PointedAt(r, r.rows[id].reference, r.rows[id].tenant);
    if current.Some? && current.value in r.rows && current.value != id && r.rows[current.value].status == Published
    then WithStatus(r, current.value, Deprecated)
    else r
  }

  ghost function Perform(r: Registry, op: Operation): Registry
    requires Allowed(r, op)
  {
    match op
    case CreateDraft(id, draft) => r.(rows := r.rows[id := draft])
    case DeleteDraft(id) => r.(rows := r.rows - {id})
    case Advance(id, to) => WithStatus(r, id, to)
    case Publish(id) => Pointed(WithStatus(r, id, Published), id)
    case Rollback(id) => Pointed(RolledFrom(r, id), id)
  }

  // ------------------------------------------------------------- invariants

  // Pointers lead to released versions of their own catalogue, every released
  // version's reference has a pointer there, and a digest is of one body.
  ghost predicate Sound(r: Registry) {
    && (forall key | key in r.pointers :: PointerSound(r, key))
    && (forall id | id in r.rows && Released(r.rows[id].status) :: (r.rows[id].tenant, r.rows[id].reference) in r.pointers)
    && OneBody(r)
  }

  ghost predicate PointerSound(r: Registry, key: (string, string))
    requires key in r.pointers
  {
    var id := r.pointers[key];
    id in r.rows && r.rows[id].tenant == key.0 && r.rows[id].reference == key.1 && Released(r.rows[id].status)
  }

  ghost predicate OneBody(r: Registry) {
    forall a, b | a in r.rows && b in r.rows :: SameDigestSameBody(r.rows[a], r.rows[b])
  }

  // A released version stands: later it is still there, with the same content.
  ghost predicate Stands(a: Registry, b: Registry) {
    forall id | id in a.rows && Released(a.rows[id].status) ::
      id in b.rows && Released(b.rows[id].status) && b.rows[id].(status := a.rows[id].status) == a.rows[id]
  }

  // Pointers stay sound where what was released stands.
  lemma PointersStand(r: Registry, r': Registry)
    requires (forall key | key in r.pointers :: PointerSound(r, key)) && Stands(r, r') && r'.pointers == r.pointers
    ensures forall key | key in r'.pointers :: PointerSound(r', key)
  {
    forall key | key in r'.pointers ensures PointerSound(r', key) { assert PointerSound(r, key); }
  }

  lemma DraftKeepsSound(r: Registry, op: Operation)
    requires Sound(r) && Allowed(r, op) && (op.CreateDraft? || op.DeleteDraft?)
    ensures Sound(Perform(r, op)) && Stands(r, Perform(r, op))
  {
    DraftStands(r, op);
    PointersStand(r, Perform(r, op));
    DraftKeepsOneBody(r, op);
  }

  lemma DraftStands(r: Registry, op: Operation)
    requires Allowed(r, op) && (op.CreateDraft? || op.DeleteDraft?)
    ensures Stands(r, Perform(r, op))
  {
  }

  lemma DraftKeepsOneBody(r: Registry, op: Operation)
    requires OneBody(r) && Allowed(r, op) && (op.CreateDraft? || op.DeleteDraft?)
    ensures OneBody(Perform(r, op))
  {
    var r' := Perform(r, op);
    forall a, b | a in r'.rows && b in r'.rows ensures SameDigestSameBody(r'.rows[a], r'.rows[b]) {
      if a in r.rows && b in r.rows && r'.rows[a] == r.rows[a] && r'.rows[b] == r.rows[b] {
        assert SameDigestSameBody(r.rows[a], r.rows[b]);
      }
    }
  }

  lemma StatusKeepsOneBody(r: Registry, id: nat, status: Status)
    requires OneBody(r) && id in r.rows
    ensures OneBody(WithStatus(r, id, status))
  {
    var r' := WithStatus(r, id, status);
    forall a, b | a in r'.rows && b in r'.rows ensures SameDigestSameBody(r'.rows[a], r'.rows[b]) {
      assert SameDigestSameBody(r.rows[a], r.rows[b]);
    }
  }

  lemma StatusStands(r: Registry, id: nat, status: Status)
    requires id in r.rows && (Released(r.rows[id].status) ==> Released(status))
    ensures Stands(r, WithStatus(r, id, status))
  {
  }

  // Moving a version along its lifecycle, released or not before as after.
  lemma StatusKeepsSound(r: Registry, id: nat, status: Status)
    requires Sound(r) && id in r.rows
    requires Released(status) <==> Released(r.rows[id].status)
    ensures Sound(WithStatus(r, id, status)) && Stands(r, WithStatus(r, id, status))
  {
    StatusStands(r, id, status);
    PointersStand(r, WithStatus(r, id, status));
    StatusKeepsOneBody(r, id, status);
  }

  lemma PointingKeepsSound(r: Registry, id: nat)
    requires Sound(r) && id in r.rows && Released(r.rows[id].status)
    ensures Sound(Pointed(r, id)) && Stands(r, Pointed(r, id))
  {
    var r' := Pointed(r, id);
    forall key | key in r'.pointers ensures PointerSound(r', key) {
      if key in r.pointers { assert PointerSound(r, key); }
    }
  }

  lemma PublishKeepsSound(r: Registry, id: nat)
    requires Sound(r) && Allowed(r, Publish(id))
    ensures Sound(Perform(r, Publish(id))) && Stands(r, Perform(r, Publish(id)))
  {
    var published := WithStatus(r, id, Published);
    StatusStands(r, id, Published);
    PointersStand(r, published);
    StatusKeepsOneBody(r, id, Published);
    PublishedIsPointedAt(r, id);
  }

  lemma PublishedIsPointedAt(r: Registry, id: nat)
    requires Sound(r) && id in r.rows
    requires var published := WithStatus(r, id, Published); forall key | key in published.pointers :: PointerSound(published, key)
    ensures var r' := Pointed(WithStatus(r, id, Published), id);
      && (forall key | key in r'.pointers :: PointerSound(r', key))
      && forall i | i in r'.rows && Released(r'.rows[i].status) :: (r'.rows[i].tenant, r'.rows[i].reference) in r'.pointers
  {
    var published := WithStatus(r, id, Published);
    var r' := Pointed(published, id);
    forall key | key in r'.pointers ensures PointerSound(r', key) {
      if key in published.pointers { assert PointerSound(published, key); }
    }
  }

  lemma OperationKeepsSound(r: Registry, op: Operation)
    requires Sound(r) && Allowed(r, op)
    ensures Sound(Perform(r, op)) && Stands(r, Perform(r, op))
  {
    match op
    case Advance(id, to) => StatusKeepsSound(r, id, to);
    case Publish(id) => PublishKeepsSound(r, id);
    case Rollback(id) =>
      var current := PointedAt(r, r.rows[id].reference, r.rows[id].tenant);
      var left := RolledFrom(r, id);
      if left != r { StatusKeepsSound(r, current.value, Deprecated); }
      PointingKeepsSound(left, id);
    case _ => DraftKeepsSound(r, op);
  }

  // A rollback touches nothing outside the catalogue it rolls back in: what it
  // deprecates is the tenant's own version, never the platform's.
  lemma RollbackStaysInItsCatalogue(r: Registry, id: nat, other: nat)
    requires Sound(r) && Allowed(r, Rollback(id))
    requires other in r.rows && r.rows[other].tenant != r.rows[id].tenant
    ensures Perform(r, Rollback(id)).rows[other] == r.rows[other]
  {
    var key := (r.rows[id].tenant, r.rows[id].reference);
    assert key in r.pointers && PointerSound(r, key);
  }

  // ------------------------------------------------------ what is current

  // Where a version can have come from.
  function PreviousStatuses(to: Status): set<Status> {
    match to
    case Draft => {Validating}
    case Validating => {Draft}
    case Approved => {Validating}
    case Published => {Approved}
    case Deprecated => {Published}
    case Retired => {Deprecated}
  }

  lemma StatusesReadBackwards(from: Status, to: Status)
    ensures to in NextStatuses(from) <==> from in PreviousStatuses(to)
  {
  }

  // A reference resolves exactly when a version of it has been released, in the
  // tenant's catalogue or the platform's, and to one of the tenant's own if there
  // is any.
  lemma ResolvesExactlyWhenReleased(r: Registry, reference: string, tenant: string)
    requires Sound(r)
    ensures Resolve(r, reference, tenant).Some? <==>
      ReleasedIn(r, reference, tenant) || ReleasedIn(r, reference, "")
    ensures var a := Resolve(r, reference, tenant);
      a.Some? ==>
        && (exists id :: id in r.rows && r.rows[id] == a.value)
        && a.value.reference == reference && a.value.status in {Published, Deprecated, Retired}
        && a.value.tenant == if ReleasedIn(r, reference, tenant) then tenant else ""
  {
    forall owner ensures ReleasedIn(r, reference, owner) <==> (owner, reference) in r.pointers {
      if (owner, reference) in r.pointers { assert PointerSound(r, (owner, reference)); }
    }
  }

  ghost predicate ReleasedIn(r: Registry, reference: string, tenant: string) {
    exists id :: id in r.rows && r.rows[id].tenant == tenant && r.rows[id].reference == reference
      && r.rows[id].status in {Published, Deprecated, Retired}
  }

  // A published version is what its catalogue's reference resolves to from then on,
  // and nothing else of the registry changes.
  lemma PublishedIsCurrent(r: Registry, id: nat)
    requires Sound(r) && Allowed(r, Publish(id))
    ensures var r', a := Perform(r, Publish(id)), r.rows[id];
      && a.status == Approved
      && r'.rows == r.rows[id := Artifact(a.kind, a.reference, a.version, a.digest, a.body, a.tenant, Published)]
      && Resolve(r', a.reference, a.tenant) == Some(r'.rows[id])
      && forall reference, tenant | reference != a.reference || (a.tenant != "" && a.tenant != tenant) ::
           Resolve(r', reference, tenant) == Resolve(r, reference, tenant)
  {
    forall key | key in r.pointers ensures r.pointers[key] != id { assert PointerSound(r, key); }
  }

  // A version that is rolled back to is current again, and the published one it
  // takes over from is deprecated.
  lemma RolledBackToIsCurrent(r: Registry, id: nat)
    requires Sound(r) && Allowed(r, Rollback(id))
    ensures var r', a := Perform(r, Rollback(id)), r.rows[id];
      && a.status in {Published, Deprecated}
      && r'.rows.Keys == r.rows.Keys && Resolve(r', a.reference, a.tenant) == Some(a)
      && forall other | other in r.rows && r'.rows[other] != r.rows[other] ::
           && other != id && Resolve(r, a.reference, a.tenant) == Some(r.rows[other])
           && r.rows[other].status == Published && r'.rows[other] == r.rows[other].(status := Deprecated)
    ensures var r', a := Perform(r, Rollback(id)), r.rows[id];
      var current := PointedAt(r, a.reference, a.tenant);
      current.Some? && current.value != id && current.value in r.rows ==> r'.rows[current.value].status != Published
  {
  }

  // No two versions share a catalogue, a reference and a number.
  ghost predicate VersionsApart(r: Registry) {
    forall a, b | a in r.rows && b in r.rows && a != b ::
      || r.rows[a].tenant != r.rows[b].tenant || r.rows[a].reference != r.rows[b].reference
      || r.rows[a].version != r.rows[b].version
  }

  lemma OperationKeepsVersionsApart(r: Registry, op: Operation)
    requires VersionsApart(r) && Allowed(r, op)
    ensures VersionsApart(Perform(r, op))
  {
    var r' := Perform(r, op);
    forall a, b | a in r'.rows && b in r'.rows && a != b
      ensures r'.rows[a].tenant != r'.rows[b].tenant || r'.rows[a].reference != r'.rows[b].reference
        || r'.rows[a].version != r'.rows[b].version
    {
      if a in r.rows && b in r.rows {
        assert r.rows[a].tenant != r.rows[b].tenant || r.rows[a].reference != r.rows[b].reference
          || r.rows[a].version != r.rows[b].version;
      } else {
        var other := if a in r.rows then a else b;
        assert !SameVersion(r.rows[other], op.draft);
      }
    }
  }
}
