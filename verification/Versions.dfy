/**
 * Precedence as section 11 of Semantic Versioning 2.0.0 defines it, with what
 * golang.org/x/mod/semver adds: text that is not a version sorts below every
 * version and equal to any other such text. Parsing is that library's, so a
 * version here is its text with the precedence the text parses to.
 */
module Versions {
  import Ordering

  datatype Identifier = Number(n: nat) | Word(s: string)

  // An empty pre-release list is a release.
  datatype Precedence = Invalid | Valid(major: nat, minor: nat, patch: nat, pre: seq<Identifier>)

  datatype Version = Version(text: string, precedence: Precedence)

  predicate IdentifierLess(a: Identifier, b: Identifier) {
    match (a, b)
    case (Number(m), Number(n)) => m < n
    case (Number(_), Word(_)) => true
    case (Word(_), Number(_)) => false
    case (Word(s), Word(t)) => Ordering.StringLess(s, t)
  }

  // Field by field from the left; a list that runs out first is lower.
  predicate FieldsLess(a: seq<Identifier>, b: seq<Identifier>)
    decreases |a|
  {
    if b == [] then false
    else if a == [] then true
    else IdentifierLess(a[0], b[0]) || (a[0] == b[0] && FieldsLess(a[1..], b[1..]))
  }

  // A pre-release is lower than its release.
  predicate PreLess(a: seq<Identifier>, b: seq<Identifier>) {
    if a == [] then false else b == [] || FieldsLess(a, b)
  }

  predicate Lower(a: Precedence, b: Precedence) {
    if a.Invalid? || b.Invalid? then a.Invalid? && b.Valid?
    else if a.major != b.major then a.major < b.major
    else if a.minor != b.minor then a.minor < b.minor
    else if a.patch != b.patch then a.patch < b.patch
    else PreLess(a.pre, b.pre)
  }

  lemma IdentifierOrder(a: Identifier, b: Identifier, c: Identifier)
    ensures IdentifierLess(a, b) ==> a != b && !IdentifierLess(b, a)
    ensures IdentifierLess(a, b) || a == b || IdentifierLess(b, a)
    ensures IdentifierLess(a, b) && IdentifierLess(b, c) ==> IdentifierLess(a, c)
  {
    if a.Word? && b.Word? {
      Ordering.StringLessTotal(a.s, b.s);
      if Ordering.StringLess(a.s, b.s) {
        Ordering.StringLessAsymmetric(a.s, b.s);
        if c.Word? && Ordering.StringLess(b.s, c.s) { Ordering.StringLessTransitive(a.s, b.s, c.s); }
      }
    }
  }

  lemma {:induction false} FieldsOrder(a: seq<Identifier>, b: seq<Identifier>, c: seq<Identifier>)
    ensures FieldsLess(a, b) ==> a != b && !FieldsLess(b, a)
    ensures FieldsLess(a, b) || a == b || FieldsLess(b, a)
    ensures FieldsLess(a, b) && FieldsLess(b, c) ==> FieldsLess(a, c)
    decreases |a|
  {
    if a != [] && b != [] {
      IdentifierOrder(a[0], b[0], if c == [] then a[0] else c[0]);
      IdentifierOrder(b[0], a[0], a[0]);
      FieldsOrder(a[1..], b[1..], if c == [] then [] else c[1..]);
      assert a == [a[0]] + a[1..] && b == [b[0]] + b[1..];
    }
  }

  // Precedence is a strict total order: it never ties two different versions,
  // except that build metadata and all text that is no version are not told
  // apart to begin with.
  lemma PrecedenceOrder(a: Precedence, b: Precedence, c: Precedence)
    ensures Lower(a, b) ==> a != b && !Lower(b, a)
    ensures Lower(a, b) || a == b || Lower(b, a)
    ensures Lower(a, b) && Lower(b, c) ==> Lower(a, c)
  {
    if a.Valid? && b.Valid? {
      FieldsOrder(a.pre, b.pre, if c.Valid? then c.pre else []);
    }
  }

  // -------------------------------------------------------- section 11, read

  // Numbers compare by value, words character by character, and a number is
  // below every word.
  lemma IdentifierLessExactlyWhen(a: Identifier, b: Identifier)
    ensures IdentifierLess(a, b) <==>
      || (a.Number? && b.Number? && a.n < b.n)
      || (a.Number? && b.Word?)
      || (a.Word? && b.Word? && |a.s| < |b.s| && a.s == b.s[..|a.s|])
      || (a.Word? && b.Word? && exists i :: 0 <= i < |a.s| && i < |b.s| && a.s[..i] == b.s[..i] && a.s[i] < b.s[i])
  {
    if a.Word? && b.Word? { Ordering.StringLessExactlyWhen(a.s, b.s); }
  }

  // Identifiers compare from the left: the first that differs decides, and a
  // list that runs out first is lower.
  lemma {:induction false} FieldsLessExactlyWhen(a: seq<Identifier>, b: seq<Identifier>)
    ensures FieldsLess(a, b) <==>
      || (|a| < |b| && a == b[..|a|])
      || (exists i :: 0 <= i < |a| && i < |b| && a[..i] == b[..i] && IdentifierLess(a[i], b[i]))
    decreases |a|
  {
    if a != [] && b != [] {
      if a[0] == b[0] {
        FieldsLessExactlyWhen(a[1..], b[1..]);
        Ordering.SplitOffHead(a, b);
        IdentifierOrder(a[0], b[0], a[0]);
        FirstDifferenceBehind(a, b);
      } else {
        if IdentifierLess(a[0], b[0]) { assert a[..0] == b[..0]; }
        forall i | 0 < i <= |a| && i <= |b| ensures a[..i] != b[..i] { assert a[..i][0] != b[..i][0]; }
      }
    }
  }

  lemma FirstDifferenceBehind(a: seq<Identifier>, b: seq<Identifier>)
    requires a != [] && b != [] && a[0] == b[0]
    ensures var c, d := a[1..], b[1..];
      (exists i :: 0 <= i < |c| && i < |d| && c[..i] == d[..i] && IdentifierLess(c[i], d[i]))
      ==> exists i :: 0 <= i < |a| && i < |b| && a[..i] == b[..i] && IdentifierLess(a[i], b[i])
  {
    var c, d := a[1..], b[1..];
    if i :| 0 <= i < |c| && i < |d| && c[..i] == d[..i] && IdentifierLess(c[i], d[i]) {
      assert a[..i + 1] == [a[0]] + a[1..][..i] && b[..i + 1] == [b[0]] + b[1..][..i];
      assert IdentifierLess(a[i + 1], b[i + 1]);
    }
  }

  // Section 11, clause by clause: major, minor and patch compare as numbers in
  // that order, a pre-release is below its release, pre-releases compare by
  // their identifiers, and what is no version is below all that are.
  lemma LowerExactlyWhen(a: Precedence, b: Precedence)
    ensures a.Invalid? ==> (Lower(a, b) <==> b.Valid?)
    ensures b.Invalid? ==> !Lower(a, b)
    ensures a.Valid? && b.Valid? ==> (Lower(a, b) <==>
      || a.major < b.major
      || (a.major == b.major && a.minor < b.minor)
      || (a.major == b.major && a.minor == b.minor && a.patch < b.patch)
      || (a.major == b.major && a.minor == b.minor && a.patch == b.patch && a.pre != [] && b.pre == [])
      || (&& a.major == b.major && a.minor == b.minor && a.patch == b.patch && a.pre != [] && b.pre != []
          && (|| (|a.pre| < |b.pre| && a.pre == b.pre[..|a.pre|])
              || exists i :: 0 <= i < |a.pre| && i < |b.pre| && a.pre[..i] == b.pre[..i]
                   && IdentifierLess(a.pre[i], b.pre[i]))))
  {
    if a.Valid? && b.Valid? {
      if a.pre != [] { FieldsLessExactlyWhen(a.pre, b.pre); }
    }
  }

  // The two chains section 11 gives as examples: 1.0.0-alpha, -alpha.1,
  // -alpha.beta, -beta, -beta.2, -beta.11, -rc.1 and 1.0.0; then 1.0.0, 2.0.0,
  // 2.1.0 and 2.1.1.
  lemma TheStandardsExample()
    ensures Lower(Valid(1, 0, 0, [Word("alpha")]), Valid(1, 0, 0, [Word("alpha"), Number(1)]))
    ensures Lower(Valid(1, 0, 0, [Word("alpha"), Number(1)]), Valid(1, 0, 0, [Word("alpha"), Word("beta")]))
    ensures Lower(Valid(1, 0, 0, [Word("alpha"), Word("beta")]), Valid(1, 0, 0, [Word("beta")]))
    ensures Lower(Valid(1, 0, 0, [Word("beta")]), Valid(1, 0, 0, [Word("beta"), Number(2)]))
    ensures Lower(Valid(1, 0, 0, [Word("beta"), Number(2)]), Valid(1, 0, 0, [Word("beta"), Number(11)]))
    ensures Lower(Valid(1, 0, 0, [Word("beta"), Number(11)]), Valid(1, 0, 0, [Word("rc"), Number(1)]))
    ensures Lower(Valid(1, 0, 0, [Word("rc"), Number(1)]), Valid(1, 0, 0, []))
    ensures Lower(Valid(1, 0, 0, []), Valid(2, 0, 0, [])) && Lower(Valid(2, 0, 0, []), Valid(2, 1, 0, []))
      && Lower(Valid(2, 1, 0, []), Valid(2, 1, 1, []))
  {
    var alpha, beta, rc := Word("alpha"), Word("beta"), Word("rc");
    assert IdentifierLess(alpha, beta) && IdentifierLess(beta, rc) && IdentifierLess(Number(1), beta);
    assert [alpha, Number(1)][1..] == [Number(1)] && [alpha, beta][1..] == [beta];
    assert [beta, Number(2)][1..] == [Number(2)] && [beta, Number(11)][1..] == [Number(11)];
  }
}
