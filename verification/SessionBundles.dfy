/**
 * compose of services/intelligence (composition/composer.py): what the other side
 * makes of the pins it is sent, and which of them a reader of the bundle finds.
 */
module SessionBundles {
  import opened Wrappers
  import opened Pinning
  import opened Composer
  import Ordering

  // One pinned input of a bundle: coordinates, without the body.
  datatype Entry = Entry(kind: string, reference: string, version: string, digest: string)

  datatype Rejection = NoSession | NoBlueprintNamed | UnknownPurpose | NothingSent | PlanNotPinned(blueprint: string)

  function EntryOf(p: Pin): Entry {
    Entry(p.kind, p.reference, p.version, p.digest)
  }

  function Entries(sent: seq<Pin>): seq<Entry> {
    Ordering.Map(EntryOf, sent)
  }

  // By kind, and then by reference.
  predicate EntryLess(a: Entry, b: Entry) {
    Ordering.StringLess(a.kind, b.kind) || (a.kind == b.kind && Ordering.StringLess(a.reference, b.reference))
  }

  function Kept(sent: seq<Pin>): seq<Entry> {
    Ordering.Arranged(EntryLess, Entries(sent))
  }

  predicate HasPlan(sent: seq<Pin>, blueprint: string) {
    exists i :: 0 <= i < |sent| && sent[i].kind == PLAN && sent[i].reference == blueprint
  }

  function Bundled(session: string, blueprint: string, purpose: string, sent: seq<Pin>): Result<seq<Entry>, Rejection> {
    if session == "" then Err(NoSession)
    else if blueprint == "" then Err(NoBlueprintNamed)
    else if purpose != PRACTICE && purpose != SCREENING then Err(UnknownPurpose)
    else if sent == [] then Err(NothingSent)
    else if !HasPlan(sent, blueprint) then Err(PlanNotPinned(blueprint))
    else Ok(Kept(sent))
  }

  lemma EntryOrderIsStrictWeak()
    ensures Ordering.StrictWeakOrder(EntryLess)
  {
    Ordering.StringOrderIsStrictWeak();
    forall x, y | !EntryLess(x, y) && !EntryLess(y, x) ensures x.kind == y.kind && x.reference == y.reference {
      Ordering.StringLessTotal(x.kind, y.kind);
      Ordering.StringLessTotal(x.reference, y.reference);
    }
    forall x, y, z | !EntryLess(x, y) && !EntryLess(y, z) ensures !EntryLess(x, z) {
      Ordering.StringLessTotal(x.kind, y.kind);
      Ordering.StringLessTotal(y.kind, z.kind);
    }
  }

  lemma KeptWasSent(sent: seq<Pin>, e: Entry)
    ensures e in Kept(sent) <==> exists p :: p in sent && EntryOf(p) == e
  {
    var entries := Entries(sent);
    Ordering.ArrangedMembers(EntryLess, entries);
    if e in entries {
      var i :| 0 <= i < |entries| && entries[i] == e;
      assert sent[i] in sent && EntryOf(sent[i]) == e;
    }
    if p :| p in sent && EntryOf(p) == e {
      var i :| 0 <= i < |sent| && sent[i] == p;
      assert entries[i] == e;
    }
  }

  // The same inputs in any order are the same bundle, exactly when no two different
  // ones are of one kind and reference.
  lemma OneBundleExactlyWhenNoneTie(inputs: seq<Entry>)
    ensures (forall other | multiset(other) == multiset(inputs) ::
               Ordering.Arranged(EntryLess, other) == Ordering.Arranged(EntryLess, inputs))
      <==> forall e, f | e in inputs && f in inputs && e.kind == f.kind && e.reference == f.reference :: e == f
  {
    EntryOrderIsStrictWeak();
    Ordering.ArrangedAlikeExactlyWhen(EntryLess, inputs);
    TiesAreOfOneReference(inputs);
  }

  lemma TiesAreOfOneReference(inputs: seq<Entry>)
    ensures Ordering.TiesAreEqual(EntryLess, inputs) <==>
      forall e, f | e in inputs && f in inputs && e.kind == f.kind && e.reference == f.reference :: e == f
  {
    forall e: Entry, f: Entry
      ensures e.kind == f.kind && e.reference == f.reference <==> !EntryLess(e, f) && !EntryLess(f, e)
    {
      TiedExactlyWhen(e, f);
    }
    forall i | 0 <= i < |inputs| ensures inputs[i] in inputs {}
    if Ordering.TiesAreEqual(EntryLess, inputs) {
      forall e, f | e in inputs && f in inputs && e.kind == f.kind && e.reference == f.reference ensures e == f {
        var i, j :| 0 <= i < |inputs| && 0 <= j < |inputs| && inputs[i] == e && inputs[j] == f;
      }
    }
  }

  lemma TiedExactlyWhen(e: Entry, f: Entry)
    ensures e.kind == f.kind && e.reference == f.reference <==> !EntryLess(e, f) && !EntryLess(f, e)
  {
    EntryOrderIsStrictWeak();
    Ordering.StringLessTotal(e.kind, f.kind);
    Ordering.StringLessTotal(e.reference, f.reference);
    if e.kind == f.kind && e.reference == f.reference { assert EntryLess(e, f) <==> EntryLess(f, e); }
  }

  // ------------------------------------------------- which pin a reader finds

  // The first input of a kind.
  function FirstOf(inputs: seq<Entry>, kind: string): Option<Entry> {
    if inputs == [] then None
    else if inputs[0].kind == kind then Some(inputs[0])
    else FirstOf(inputs[1..], kind)
  }

  // The last one.
  function LastOf(inputs: seq<Entry>, kind: string): Option<Entry> {
    if inputs == [] then None
    else if inputs[|inputs| - 1].kind == kind then Some(inputs[|inputs| - 1])
    else LastOf(inputs[..|inputs| - 1], kind)
  }

  lemma {:induction false} LastIsListed(inputs: seq<Entry>, kind: string)
    ensures match LastOf(inputs, kind)
            case None => forall e | e in inputs :: e.kind != kind
            case Some(e) => e in inputs && e.kind == kind
    decreases |inputs|
  {
    if inputs != [] {
      LastIsListed(inputs[..|inputs| - 1], kind);
      assert inputs == inputs[..|inputs| - 1] + [inputs[|inputs| - 1]];
    }
  }

  lemma {:induction false} FirstIsListed(inputs: seq<Entry>, kind: string)
    ensures match FirstOf(inputs, kind)
            case None => forall e | e in inputs :: e.kind != kind
            case Some(e) => e in inputs && e.kind == kind
    decreases |inputs|
  {
    if inputs != [] {
      FirstIsListed(inputs[1..], kind);
      assert inputs == [inputs[0]] + inputs[1..];
    }
  }

  // One pin comes before another in a bundle: by its reference, and by the order
  // they were sent in where those are the same.
  predicate Sooner(p: Pin, i: nat, q: Pin, j: nat) {
    Ordering.StringLess(p.reference, q.reference) || (p.reference == q.reference && i < j)
  }

  // The pin of a kind that comes before every other, and after.
  ghost predicate Leads(sent: seq<Pin>, kind: string, i: nat) {
    && i < |sent| && sent[i].kind == kind
    && forall j | 0 <= j < |sent| && j != i && sent[j].kind == kind :: Sooner(sent[i], i, sent[j], j)
  }

  ghost predicate Trails(sent: seq<Pin>, kind: string, i: nat) {
    && i < |sent| && sent[i].kind == kind
    && forall j | 0 <= j < |sent| && j != i && sent[j].kind == kind :: Sooner(sent[j], j, sent[i], i)
  }

  lemma NothingIsLess(x: Entry, t: seq<Entry>, e: Entry)
    requires Ordering.StrictWeakOrder(EntryLess) && Ordering.SortedBy(EntryLess, t)
    requires t != [] && !EntryLess(t[0], x) && e in t
    ensures !EntryLess(e, x)
  {
    var k :| 0 <= k < |t| && t[k] == e;
    if k > 0 { assert !EntryLess(t[k], t[0]); }
  }

  // Putting one more input among sorted ones.
  lemma {:induction false} FirstWithOneMore(x: Entry, t: seq<Entry>, kind: string)
    requires Ordering.StrictWeakOrder(EntryLess) && Ordering.SortedBy(EntryLess, t)
    ensures FirstOf(Ordering.InsertBy(EntryLess, x, t), kind) ==
      var found := FirstOf(t, kind);
      if x.kind == kind && (found.None? || !EntryLess(found.value, x)) then Some(x) else found
    decreases |t|
  {
    FirstIsListed(t, kind);
    if t == [] || !EntryLess(t[0], x) {
      assert ([x] + t)[1..] == t;
      if FirstOf(t, kind).Some? { NothingIsLess(x, t, FirstOf(t, kind).value); }
    } else {
      FirstWithOneMore(x, t[1..], kind);
    }
  }

  lemma LastOfCons(x: Entry, t: seq<Entry>, kind: string)
    ensures LastOf([x] + t, kind) == if LastOf(t, kind).Some? then LastOf(t, kind) else if x.kind == kind then Some(x) else None
    decreases |t|
  {
    var s := [x] + t;
    if t == [] {
      assert s[..0] == [];
    } else {
      assert s[..|s| - 1] == [x] + t[..|t| - 1];
      LastOfCons(x, t[..|t| - 1], kind);
    }
  }

  lemma {:induction false} LastWithOneMore(x: Entry, t: seq<Entry>, kind: string)
    requires Ordering.StrictWeakOrder(EntryLess) && Ordering.SortedBy(EntryLess, t)
    ensures LastOf(Ordering.InsertBy(EntryLess, x, t), kind) ==
      var found := LastOf(t, kind);
      if x.kind == kind && (found.None? || EntryLess(found.value, x)) then Some(x) else found
    decreases |t|
  {
    LastIsListed(t, kind);
    if t == [] || !EntryLess(t[0], x) {
      LastOfCons(x, t, kind);
      if LastOf(t, kind).Some? { NothingIsLess(x, t, LastOf(t, kind).value); }
    } else {
      assert t == [t[0]] + t[1..];
      LastOfCons(t[0], t[1..], kind);
      LastOfCons(t[0], Ordering.InsertBy(EntryLess, x, t[1..]), kind);
      LastWithOneMore(x, t[1..], kind);
      LastIsListed(t[1..], kind);
    }
  }

  // Which pin leads, and which trails, when one more is put in front of the rest.
  lemma LeaderWithOneMore(sent: seq<Pin>, kind: string, k: nat)
    requires sent != [] && Leads(sent[1..], kind, k)
    ensures if sent[0].kind == kind && !Ordering.StringLess(sent[k + 1].reference, sent[0].reference)
            then Leads(sent, kind, 0) else Leads(sent, kind, k + 1)
  {
    Ordering.StringOrderIsStrictWeak();
    var lead := sent[k + 1];
    Ordering.StringLessTotal(lead.reference, sent[0].reference);
    forall j | 0 < j < |sent| && j != k + 1 && sent[j].kind == kind ensures Sooner(lead, k + 1, sent[j], j) {
      assert sent[1..][j - 1] == sent[j];
    }
    if sent[0].kind == kind && !Ordering.StringLess(lead.reference, sent[0].reference) {
      forall j | 0 < j < |sent| && sent[j].kind == kind ensures Sooner(sent[0], 0, sent[j], j) {
        Ordering.StringLessTotal(sent[0].reference, sent[j].reference);
      }
    }
  }

  lemma TrailerWithOneMore(sent: seq<Pin>, kind: string, k: nat)
    requires sent != [] && Trails(sent[1..], kind, k)
    ensures if sent[0].kind == kind && Ordering.StringLess(sent[k + 1].reference, sent[0].reference)
            then Trails(sent, kind, 0) else Trails(sent, kind, k + 1)
  {
    Ordering.StringOrderIsStrictWeak();
    var last := sent[k + 1];
    Ordering.StringLessTotal(last.reference, sent[0].reference);
    forall j | 0 < j < |sent| && j != k + 1 && sent[j].kind == kind ensures Sooner(sent[j], j, last, k + 1) {
      assert sent[1..][j - 1] == sent[j];
    }
  }

  lemma KeptWithOneMore(sent: seq<Pin>)
    requires sent != []
    ensures Kept(sent) == Ordering.InsertBy(EntryLess, EntryOf(sent[0]), Kept(sent[1..]))
    ensures Ordering.StrictWeakOrder(EntryLess) && Ordering.SortedBy(EntryLess, Kept(sent[1..]))
  {
    EntryOrderIsStrictWeak();
    Ordering.ArrangedIsSorted(EntryLess, Entries(sent[1..]));
    assert Entries(sent)[1..] == Entries(sent[1..]);
  }

  // What either reader finds with one more pin in front.
  lemma FirstReadWithOneMore(sent: seq<Pin>, kind: string)
    requires sent != []
    ensures FirstOf(Kept(sent), kind) ==
      var found := FirstOf(Kept(sent[1..]), kind);
      if sent[0].kind == kind && (found.None? || !Ordering.StringLess(found.value.reference, sent[0].reference))
      then Some(EntryOf(sent[0])) else found
  {
    KeptWithOneMore(sent);
    FirstWithOneMore(EntryOf(sent[0]), Kept(sent[1..]), kind);
    FirstIsListed(Kept(sent[1..]), kind);
    Ordering.StringOrderIsStrictWeak();
  }

  lemma LastReadWithOneMore(sent: seq<Pin>, kind: string)
    requires sent != []
    ensures LastOf(Kept(sent), kind) ==
      var found := LastOf(Kept(sent[1..]), kind);
      if sent[0].kind == kind && (found.None? || Ordering.StringLess(found.value.reference, sent[0].reference))
      then Some(EntryOf(sent[0])) else found
  {
    KeptWithOneMore(sent);
    LastWithOneMore(EntryOf(sent[0]), Kept(sent[1..]), kind);
    LastIsListed(Kept(sent[1..]), kind);
    Ordering.StringOrderIsStrictWeak();
  }

  ghost predicate NoneOf(sent: seq<Pin>, kind: string) {
    forall i | 0 <= i < |sent| :: sent[i].kind != kind
  }

  lemma NoneWithOneMore(sent: seq<Pin>, kind: string)
    requires sent != [] && NoneOf(sent[1..], kind)
    ensures if sent[0].kind == kind then Leads(sent, kind, 0) && Trails(sent, kind, 0) else NoneOf(sent, kind)
  {
    forall i | 0 < i < |sent| ensures sent[i].kind != kind { assert sent[1..][i - 1] == sent[i]; }
  }

  // The first reader finds the pin that leads its kind, and finds nothing exactly
  // when none of it was sent.
  lemma {:induction false} LeaderIsRead(sent: seq<Pin>, kind: string) returns (i: nat)
    ensures match FirstOf(Kept(sent), kind)
            case None => NoneOf(sent, kind)
            case Some(e) => Leads(sent, kind, i) && e == EntryOf(sent[i])
    decreases |sent|
  {
    i := 0;
    if sent != [] {
      var k := LeaderIsRead(sent[1..], kind);
      FirstReadWithOneMore(sent, kind);
      if FirstOf(Kept(sent[1..]), kind).None? {
        NoneWithOneMore(sent, kind);
      } else {
        LeaderWithOneMore(sent, kind, k);
        if sent[0].kind != kind || Ordering.StringLess(sent[k + 1].reference, sent[0].reference) { i := k + 1; }
      }
    }
  }

  // And the last reader the one that trails it.
  lemma {:induction false} TrailerIsRead(sent: seq<Pin>, kind: string) returns (i: nat)
    ensures match LastOf(Kept(sent), kind)
            case None => NoneOf(sent, kind)
            case Some(e) => Trails(sent, kind, i) && e == EntryOf(sent[i])
    decreases |sent|
  {
    i := 0;
    if sent != [] {
      var k := TrailerIsRead(sent[1..], kind);
      LastReadWithOneMore(sent, kind);
      if LastOf(Kept(sent[1..]), kind).None? {
        NoneWithOneMore(sent, kind);
      } else {
        TrailerWithOneMore(sent, kind, k);
        if sent[0].kind != kind || !Ordering.StringLess(sent[k + 1].reference, sent[0].reference) { i := k + 1; }
      }
    }
  }

  lemma OneLeads(sent: seq<Pin>, kind: string, i: nat, k: nat)
    requires Leads(sent, kind, i) && Leads(sent, kind, k)
    ensures i == k
  {
    if i != k { BothSooner(sent[i], i, sent[k], k); }
  }

  lemma OneTrails(sent: seq<Pin>, kind: string, i: nat, k: nat)
    requires Trails(sent, kind, i) && Trails(sent, kind, k)
    ensures i == k
  {
    if i != k { BothSooner(sent[i], i, sent[k], k); }
  }

  lemma BothSooner(p: Pin, i: nat, q: Pin, j: nat)
    ensures !(Sooner(p, i, q, j) && Sooner(q, j, p, i))
  {
    Ordering.StringOrderIsStrictWeak();
  }

  // So which pin is read is a matter of kinds, references and places alone.
  lemma ReadExactlyWhenItLeads(sent: seq<Pin>, kind: string, e: Entry)
    ensures FirstOf(Kept(sent), kind) == Some(e) <==> exists i: nat :: Leads(sent, kind, i) && EntryOf(sent[i]) == e
    ensures LastOf(Kept(sent), kind) == Some(e) <==> exists i: nat :: Trails(sent, kind, i) && EntryOf(sent[i]) == e
  {
    var k := LeaderIsRead(sent, kind);
    var l := TrailerIsRead(sent, kind);
    forall i: nat | Leads(sent, kind, i) ensures i == k {
      OneLeads(sent, kind, i, k);
    }
    forall i: nat | Trails(sent, kind, i) ensures i == l {
      OneTrails(sent, kind, i, l);
    }
  }

  // ------------------------------------------------------ what is kept, read

  // Which pins are taken, and why the others are not: the reasons in their order.
  lemma BundledExactlyWhen(session: string, blueprint: string, purpose: string, sent: seq<Pin>)
    ensures var made := Bundled(session, blueprint, purpose, sent);
      var planned := exists p :: p in sent && p.kind == "plan" && p.reference == blueprint;
      && (made == Err(NoSession) <==> session == "")
      && (made == Err(NoBlueprintNamed) <==> session != "" && blueprint == "")
      && (made == Err(UnknownPurpose) <==> session != "" && blueprint != "" && purpose !in {"practice", "screening"})
      && (made == Err(NothingSent) <==>
            session != "" && blueprint != "" && purpose in {"practice", "screening"} && sent == [])
      && (made == Err(PlanNotPinned(blueprint)) <==>
            session != "" && blueprint != "" && purpose in {"practice", "screening"} && sent != [] && !planned)
      && (made.Ok? <==> session != "" && blueprint != "" && purpose in {"practice", "screening"} && planned)
  {
    if p :| p in sent && p.kind == "plan" && p.reference == blueprint {
      var i :| 0 <= i < |sent| && sent[i] == p;
    }
  }

  ghost predicate Shows(e: Entry, p: Pin) {
    e.kind == p.kind && e.reference == p.reference && e.version == p.version && e.digest == p.digest
  }

  // What is kept is what was sent, without the bodies, by kind and then by reference.
  lemma KeptIsSentInOrder(sent: seq<Pin>)
    ensures |Kept(sent)| == |sent|
    ensures forall e :: e in Kept(sent) <==> exists p :: p in sent && Shows(e, p)
    ensures forall i, j | 0 <= i < j < |sent| ::
      var e, f := Kept(sent)[i], Kept(sent)[j];
      && !Ordering.StringLess(f.kind, e.kind)
      && (e.kind == f.kind ==> !Ordering.StringLess(f.reference, e.reference))
  {
    EntryOrderIsStrictWeak();
    Ordering.ArrangedMembers(EntryLess, Entries(sent));
    Ordering.ArrangedIsSorted(EntryLess, Entries(sent));
    forall e ensures e in Kept(sent) <==> exists p :: p in sent && Shows(e, p) {
      KeptWasSent(sent, e);
      if p :| p in sent && Shows(e, p) { assert EntryOf(p) == e; }
    }
    forall i, j | 0 <= i < j < |sent|
      ensures !EntryLess(Kept(sent)[j], Kept(sent)[i])
    {
    }
  }
}
