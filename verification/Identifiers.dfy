/**
 * goIdentifier in tools/eventgen/generate.go and identifier in
 * tools/authzgen/main.go, which mangle a dotted name the same way. Names are
 * bytes, because the code upper-cases a segment's first byte on its own.
 */
module Identifiers {

  newtype Byte = x: int | 0 <= x < 256

  type Name = seq<Byte>

  // What is left between separators is never empty.
  type Segment = s: Name | s != [] witness [97]

  predicate IsSeparator(b: Byte) {
    b == 46 || b == 95 // a dot or an underscore
  }

  predicate IsLower(b: Byte) {
    97 <= b <= 122
  }

  predicate IsUpper(b: Byte) {
    65 <= b <= 90
  }

  function RunLength(name: Name): (n: nat)
    ensures n <= |name| && (n < |name| ==> IsSeparator(name[n]))
    ensures forall i | 0 <= i < n :: !IsSeparator(name[i])
  {
    if name == [] || IsSeparator(name[0]) then 0 else 1 + RunLength(name[1..])
  }

  // strings.FieldsFunc at dots and underscores.
  function Segments(name: Name): seq<Segment>
    decreases |name|
  {
    if name == [] then []
    else if IsSeparator(name[0]) then Segments(name[1..])
    else [name[..RunLength(name)]] + Segments(name[RunLength(name)..])
  }

  // strings.ToUpper of a single byte. One that is not ASCII is half a character
  // and becomes the replacement character.
  function Raised(b: Byte): (r: Name)
    ensures r != []
  {
    if IsLower(b) then [b - 32] else if b < 128 then [b] else [0xEF, 0xBF, 0xBD]
  }

  function Mangled(segments: seq<Segment>): Name {
    if segments == [] then []
    else Raised(segments[0][0]) + segments[0][1..] + Mangled(segments[1..])
  }

  lemma {:induction false} MangledSnoc(segments: seq<Segment>, last: Segment)
    ensures Mangled(segments + [last]) == Mangled(segments) + (Raised(last[0]) + last[1..])
    decreases |segments|
  {
    if segments == [] {
      assert [] + [last] == [last] && Mangled([last][1..]) == [];
    } else {
      assert (segments + [last])[1..] == segments[1..] + [last];
      assert (segments + [last])[0] == segments[0];
      MangledSnoc(segments[1..], last);
    }
  }

  method GoIdentifier(name: Name) returns (identifier: Name)
    ensures identifier == Mangled(Segments(name))
  {
    identifier := [];
    var segments := Segments(name);
    for i := 0 to |segments|
      invariant identifier == Mangled(segments[..i])
    {
      assert segments[..i + 1] == segments[..i] + [segments[i]];
      MangledSnoc(segments[..i], segments[i]);
      identifier := identifier + Raised(segments[i][0]);
      identifier := identifier + segments[i][1..];
    }
    assert segments[..|segments|] == segments;
  }

  // ------------------------------------------------------------- cutting up

  // A dot or an underscore cuts a name in two, and nothing else does.
  lemma SeparatorsCut(a: Name, b: Name, separator: Byte)
    requires separator == 46 || separator == 95
    ensures Segments(a + ([separator] + b)) == Segments(a) + Segments(b)
  {
    assert ([separator] + b)[1..] == b;
    CutsAtFirst(a, [separator] + b);
  }

  lemma {:induction false} CutsAtFirst(a: Name, rest: Name)
    requires rest != [] && IsSeparator(rest[0])
    ensures Segments(a + rest) == Segments(a) + Segments(rest)
    decreases |a|
  {
    if a == [] {
      assert a + rest == rest;
    } else if IsSeparator(a[0]) {
      assert (a + rest)[1..] == a[1..] + rest;
      CutsAtFirst(a[1..], rest);
    } else {
      RunComesFirst(a, rest);
      CutsAtFirst(a[RunLength(a)..], rest);
    }
  }

  lemma RunComesFirst(a: Name, rest: Name)
    requires a != [] && !IsSeparator(a[0]) && rest != [] && IsSeparator(rest[0])
    ensures Segments(a + rest) == [a[..RunLength(a)]] + Segments(a[RunLength(a)..] + rest)
    ensures Segments(a) == [a[..RunLength(a)]] + Segments(a[RunLength(a)..])
  {
    var n := RunLength(a);
    RunEndsThere(a, rest);
    assert (a + rest)[..n] == a[..n] && (a + rest)[n..] == a[n..] + rest;
  }

  lemma RunEndsThere(a: Name, rest: Name)
    requires rest != [] && IsSeparator(rest[0])
    ensures RunLength(a + rest) == RunLength(a)
  {
    var n, all := RunLength(a), a + rest;
    assert n < |a| ==> all[n] == a[n];
    assert n == |a| ==> all[n] == rest[0];
    assert forall i | 0 <= i < n :: all[i] == a[i];
  }

  lemma UncutNameIsOneSegment(name: Name)
    requires name != [] && forall b | b in name :: b != 46 && b != 95
    ensures Segments(name) == [name]
  {
    assert name[0] in name && forall i | 0 <= i < |name| :: name[i] in name;
    assert RunLength(name) == |name|;
    assert name[..|name|] == name && name[|name|..] == [];
  }

  // How a segment's first byte is written: a lower-case letter as its capital, any
  // other ASCII byte as it is, and part of a longer character as U+FFFD in UTF-8.
  lemma FirstBytesAreRaised(segment: Segment)
    ensures var first, rest := segment[0], segment[1..];
      Mangled([segment]) ==
        if 'a' as int <= first as int <= 'z' as int then [first - ('a' as int - 'A' as int) as Byte] + rest
        else if first < 128 then segment
        else [0xEF, 0xBF, 0xBD] + rest
  {
    assert [segment][1..] == [] && [segment[0]] + segment[1..] == segment;
  }

  // ------------------------------------------------------------- reading back

  // A segment that starts with a lower-case letter and holds no upper-case one.
  predicate Plain(segment: Segment) {
    IsLower(segment[0]) && forall i | 0 <= i < |segment| :: !IsUpper(segment[i])
  }

  predicate AllPlain(segments: seq<Segment>) {
    forall i | 0 <= i < |segments| :: Plain(segments[i])
  }

  // How far an identifier runs before its next capital.
  function UntilCapital(identifier: Name): (n: nat)
    ensures n <= |identifier| && (n < |identifier| ==> IsUpper(identifier[n]))
    ensures forall i | 0 <= i < n :: !IsUpper(identifier[i])
  {
    if identifier == [] || IsUpper(identifier[0]) then 0 else 1 + UntilCapital(identifier[1..])
  }

  // The segments an identifier spells: each runs from a capital to the next.
  function Spelled(identifier: Name): seq<Name>
    decreases |identifier|
  {
    if identifier == [] then []
    else
      var n := UntilCapital(identifier[1..]);
      var first := if IsUpper(identifier[0]) then identifier[0] + 32 else identifier[0];
      [[first] + identifier[1..][..n]] + Spelled(identifier[1..][n..])
  }

  lemma MangledStartsWithCapital(segments: seq<Segment>)
    requires AllPlain(segments) && segments != []
    ensures Mangled(segments) != [] && IsUpper(Mangled(segments)[0])
  {
    assert Plain(segments[0]);
  }

  lemma MangledFirst(first: Segment, rest: seq<Segment>)
    requires Plain(first)
    ensures Mangled([first] + rest) == [first[0] - 32] + (first[1..] + Mangled(rest))
  {
    assert ([first] + rest)[1..] == rest;
  }

  lemma Divides(a: Name, b: Name)
    ensures (a + b)[..|a|] == a && (a + b)[|a|..] == b
  {
  }

  lemma SpelledStep(capital: Byte, run: Name, rest: Name)
    requires IsUpper(capital) && UntilCapital(run + rest) == |run|
    ensures Spelled([capital] + (run + rest)) == [[capital + 32] + run] + Spelled(rest)
  {
    var tail := run + rest;
    assert ([capital] + tail)[1..] == tail;
    Divides(run, rest);
  }

  lemma SpelledFirst(letter: Byte, run: Name, rest: Name)
    requires IsLower(letter) && (forall i | 0 <= i < |run| :: !IsUpper(run[i])) && (rest != [] ==> IsUpper(rest[0]))
    ensures Spelled([letter - 32] + (run + rest)) == [[letter] + run] + Spelled(rest)
  {
    CapitalComesNext(run, rest);
    SpelledStep(letter - 32, run, rest);
  }

  lemma CapitalComesNext(run: Name, rest: Name)
    requires forall i | 0 <= i < |run| :: !IsUpper(run[i])
    requires rest != [] ==> IsUpper(rest[0])
    ensures UntilCapital(run + rest) == |run|
  {
    var n := UntilCapital(run + rest);
    forall i | 0 <= i < |run| ensures !IsUpper((run + rest)[i]) { assert (run + rest)[i] == run[i]; }
    if rest != [] { assert IsUpper((run + rest)[|run|]); }
  }

  lemma OneMoreRecovered(first: Segment, rest: seq<Segment>)
    requires Plain(first) && AllPlain(rest) && Spelled(Mangled(rest)) == rest
    ensures Spelled(Mangled([first] + rest)) == [first] + rest
  {
    var name := Mangled(rest);
    if rest != [] { MangledStartsWithCapital(rest); }
    MangledFirst(first, rest);
    forall i | 0 <= i < |first[1..]| ensures !IsUpper(first[1..][i]) { assert first[1..][i] == first[i + 1]; }
    SpelledFirst(first[0], first[1..], name);
    assert [first[0]] + first[1..] == first;
  }

  // The segments of a plain name can be read back from its identifier.
  lemma {:induction false} SegmentsAreRecovered(segments: seq<Segment>)
    requires AllPlain(segments)
    ensures Spelled(Mangled(segments)) == segments
    decreases |segments|
  {
    if segments != [] {
      SegmentsAreRecovered(segments[1..]);
      OneMoreRecovered(segments[0], segments[1..]);
      assert [segments[0]] + segments[1..] == segments;
    }
  }

  // Two plain names share an identifier exactly when their segments are equal.
  lemma SharedExactlyWhenSegmentsEqual(a: Name, b: Name)
    requires AllPlain(Segments(a)) && AllPlain(Segments(b))
    ensures Mangled(Segments(a)) == Mangled(Segments(b)) <==> Segments(a) == Segments(b)
  {
    SegmentsAreRecovered(Segments(a));
    SegmentsAreRecovered(Segments(b));
  }

  // A capital inside a segment is enough to collide: a.b and aB.
  lemma CapitalsCollide()
    ensures Segments([97, 46, 98]) == [[97], [98]] && Segments([97, 66]) == [[97, 66]]
    ensures Mangled([[97], [98]]) == Mangled([[97, 66]])
  {
    assert Segments([98]) == [[98]] by {
      assert RunLength([98]) == 1 && Segments([]) == [];
      assert [98][..1] == [98] && [98][1..] == [];
    }
    assert Segments([97, 46, 98]) == [[97]] + Segments([46, 98]) by {
      assert RunLength([97, 46, 98]) == 1;
      assert [97, 46, 98][..1] == [97] && [97, 46, 98][1..] == [46, 98];
    }
    assert [46, 98][1..] == [98];
    assert Segments([97, 66]) == [[97, 66]] by {
      assert [97, 66][1..] == [66] && RunLength([66]) == 1 && RunLength([97, 66]) == 2;
      assert [97, 66][..2] == [97, 66] && [97, 66][2..] == [];
    }
    assert Mangled([[98]]) == [66] by { assert [[98]][1..] == []; }
    assert Mangled([[97], [98]]) == [65, 66] by { assert [[97], [98]][1..] == [[98]]; }
    assert Mangled([[97, 66]]) == [65, 66] by { assert [[97, 66]][1..] == [] && [97, 66][1..] == [66]; }
  }
}
