/**
 * The workflow identities the worker's routes derive. The engine refuses a
 * second start under an identity it has seen, so what the identities tell apart
 * is what can be started more than once.
 */
module WorkflowIds {
  import opened Numerals

  // One workflow run to be started.
  datatype Start =
    | Composition(session: string)
    | Evidence(session: string)
    | Articulation(session: string)
    | Grace(session: string, attempt: int)

  function Id(start: Start): string {
    match start
    case Composition(session) => "compose-" + session
    case Evidence(session) => "evidence-" + session
    case Articulation(session) => "articulation-" + session
    case Grace(session, attempt) => "grace-" + (session + "-" + Shown(attempt))
  }

  // A dash followed by something without dashes can be split one way only.
  lemma LastDashSplits(a: string, x: string, b: string, y: string)
    requires a + "-" + x == b + "-" + y
    requires (forall i | 0 <= i < |x| :: x[i] != '-') && forall i | 0 <= i < |y| :: y[i] != '-'
    ensures a == b && x == y
  {
    var s := a + "-" + x;
    LastDash(a, x);
    LastDash(b, y);
    assert |a| == |b|;
    assert a == s[..|a|] == b && x == s[|a| + 1..] == y;
  }

  lemma LastDash(a: string, x: string)
    requires forall i | 0 <= i < |x| :: x[i] != '-'
    ensures var s := a + "-" + x; s[|a|] == '-' && forall i | |a| < i < |s| :: s[i] != '-'
  {
  }

  // A negative attempt puts a second dash in the identity, which reads like a
  // session whose own name ends in one.
  ghost predicate SignClash(x: Start, y: Start) {
    x.Grace? && y.Grace? && x.attempt < 0 && y.attempt == -x.attempt && y.session == x.session + "-"
  }

  lemma GraceIdsCollide(x: Start, y: Start)
    requires x.Grace? && y.Grace?
    ensures Id(x) == Id(y) <==> x == y || SignClash(x, y) || SignClash(y, x)
  {
    var a := if x.attempt < 0 then x.session + "-" else x.session;
    var b := if y.attempt < 0 then y.session + "-" else y.session;
    var m := if x.attempt < 0 then -x.attempt else x.attempt;
    var n := if y.attempt < 0 then -y.attempt else y.attempt;
    GraceId(x, a, m);
    GraceId(y, b, n);
    if Id(x) == Id(y) {
      assert a + "-" + Digits(m) == Id(x)[6..] == Id(y)[6..] == b + "-" + Digits(n);
      LastDashSplits(a, Digits(m), b, Digits(n));
      DigitsInjective(m, n);
      if x.attempt < 0 && y.attempt < 0 {
        assert x.session == a[..|a| - 1] == b[..|b| - 1] == y.session;
      }
    }
  }

  lemma GraceId(x: Start, a: string, m: nat)
    requires x.Grace?
    requires a == if x.attempt < 0 then x.session + "-" else x.session
    requires m == if x.attempt < 0 then -x.attempt else x.attempt
    ensures Id(x) == "grace-" + (a + "-" + Digits(m))
  {
    if x.attempt < 0 {
      TwoDashes(x.session, Digits(m));
    }
  }

  lemma TwoDashes(session: string, digits: string)
    ensures session + "-" + ("-" + digits) == (session + "-") + "-" + digits
  {
  }

  // Identities of different kinds never collide, a session has one of each kind,
  // and two grace timers share one exactly when a negative attempt is involved.
  lemma IdsCollideExactlyWhen(x: Start, y: Start)
    ensures Id(x) == Id(y) <==> x == y || SignClash(x, y) || SignClash(y, x)
  {
    IdLetter(x);
    IdLetter(y);
    if x.Grace? && y.Grace? {
      GraceIdsCollide(x, y);
    } else if Id(x) == Id(y) {
      assert Letter(x) == Letter(y);
      var n := Prefix(x);
      assert x.session == Id(x)[n..] == Id(y)[n..] == y.session;
    }
  }

  function Letter(x: Start): char {
    match x case Composition(_) => 'c' case Evidence(_) => 'e' case Articulation(_) => 'a' case Grace(_, _) => 'g'
  }

  function Prefix(x: Start): nat {
    match x case Composition(_) => 8 case Evidence(_) => 9 case Articulation(_) => 13 case Grace(_, _) => 6
  }

  lemma IdLetter(x: Start)
    ensures |Id(x)| >= Prefix(x) && Id(x)[0] == Letter(x)
    ensures !x.Grace? ==> Id(x)[Prefix(x)..] == x.session
  {
  }

  // Each identity as the routes write it.
  lemma IdsAreWritten(session: string, attempt: nat)
    ensures Id(Composition(session)) == "compose-" + session
    ensures Id(Evidence(session)) == "evidence-" + session
    ensures Id(Articulation(session)) == "articulation-" + session
    ensures Id(Grace(session, attempt)) == "grace-" + (session + ("-" + Digits(attempt)))
    ensures attempt > 0 ==> Id(Grace(session, 0 - attempt)) == "grace-" + (session + ("--" + Digits(attempt)))
    ensures PlaceValue(Digits(attempt)) == attempt
  {
    NumbersReadBack(attempt);
    assert session + "-" + Digits(attempt) == session + ("-" + Digits(attempt));
    assert session + "-" + ("-" + Digits(attempt)) == session + ("--" + Digits(attempt));
  }
}
