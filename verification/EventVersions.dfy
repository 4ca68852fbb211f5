/**
 * The contract version at the end of an event type, as text and as a number, and
 * which events one leaves behind.
 */
module EventVersions {
  import opened Wrappers
  import opened Numerals
  import opened EventGate
  import opened EventReports

  // A base without line breaks, ".v", and digits.
  ghost predicate Written(eventType: string, base: string, digits: string) {
    && eventType == base + ".v" + digits && '\n' !in base && digits != ""
    && forall c | c in digits :: c in "0123456789"
  }

  lemma WrittenMatches(eventType: string, base: string, digits: string)
    ensures Written(eventType, base, digits) <==> Matches(eventType, base, digits)
  {
    if Written(eventType, base, digits) {
      forall i | 0 <= i < |digits| ensures IsDigit(digits[i]) {
        DigitIsWorth(digits[i]);
        assert digits[i] in digits;
      }
    }
    if Matches(eventType, base, digits) {
      forall c | c in digits ensures c in "0123456789" { DigitIsWorth(c); }
    }
  }

  // An event type has the version its digits amount to, when it is written with
  // some and an int can hold it.
  lemma VersionExactlyWhen(eventType: string, base: string, version: nat)
    ensures VersionOf(eventType) == Some((base, version)) <==>
      exists digits :: Written(eventType, base, digits) && PlaceValue(digits) == version <= 9223372036854775807
  {
    if VersionOf(eventType) == Some((base, version)) {
      var digits := Split(eventType).value.1;
      SplitIsTheMatch(eventType, base, digits);
      WrittenMatches(eventType, base, digits);
      ReadsItsPlaceValue(digits);
    }
    if digits :| Written(eventType, base, digits) && PlaceValue(digits) == version <= 9223372036854775807 {
      WrittenMatches(eventType, base, digits);
      SplitIsTheMatch(eventType, base, digits);
      ReadsItsPlaceValue(digits);
    }
  }

  // A number printed behind ".v" reads back, and with zeros in front no less.
  lemma VersionsReadBack(base: string, version: nat)
    requires '\n' !in base && version <= 9223372036854775807
    ensures VersionOf(base + ".v" + Digits(version)) == Some((base, version))
    ensures VersionOf(base + ".v" + ("0" + Digits(version))) == Some((base, version))
  {
    var digits := Digits(version);
    NumbersReadBack(version);
    LeadingZeroIsNothing(digits);
    WrittenMatches(base + ".v" + digits, base, digits);
    WrittenMatches(base + ".v" + ("0" + digits), base, "0" + digits);
    VersionExactlyWhen(base + ".v" + digits, base, version);
    VersionExactlyWhen(base + ".v" + ("0" + digits), base, version);
  }

  // One event type takes over from another when both have a version of one base
  // and its number is the larger.
  lemma SucceedsExactlyWhen(later: string, earlier: string)
    ensures Succeeds(later, earlier) <==>
      exists base, l, e :: Written(later, base, l) && Written(earlier, base, e)
        && PlaceValue(e) < PlaceValue(l) <= 9223372036854775807
  {
    if Succeeds(later, earlier) {
      var (base, n) := VersionOf(later).value;
      VersionExactlyWhen(later, base, n);
      VersionExactlyWhen(earlier, base, VersionOf(earlier).value.1);
    }
    if base, l, e :| (&& Written(later, base, l) && Written(earlier, base, e)
                      && PlaceValue(e) < PlaceValue(l) <= 9223372036854775807)
    {
      VersionExactlyWhen(later, base, PlaceValue(l));
      VersionExactlyWhen(earlier, base, PlaceValue(e));
    }
  }

  // With one other version of a base in the catalogue, a version is replaced
  // exactly when that one is later, and otherwise its removal is reported.
  lemma ReplacedExactlyWhenLater(previous: Catalogue, current: Catalogue, base: string, was: nat, now: nat)
    requires '\n' !in base && was != now && was <= 9223372036854775807 && now <= 9223372036854775807
    requires base + ".v" + Digits(was) in previous && current.Keys == {base + ".v" + Digits(now)}
    ensures (exists other :: other in current && Succeeds(other, base + ".v" + Digits(was))) <==> now > was
    ensures Break(base + ".v" + Digits(was), EventRemoved) in AllBreaks(previous, current) <==> now < was
  {
    var retired, left := base + ".v" + Digits(was), base + ".v" + Digits(now);
    LaterExactlyWhen(base, was, now);
    assert left in current && retired !in current;
    assert forall other | other in current :: other == left;
    ReportedExactlyWhenTold(previous, current, Break(retired, EventRemoved));
  }

  lemma LaterExactlyWhen(base: string, was: nat, now: nat)
    requires '\n' !in base && was <= 9223372036854775807 && now <= 9223372036854775807
    ensures Succeeds(base + ".v" + Digits(now), base + ".v" + Digits(was)) <==> now > was
    ensures base + ".v" + Digits(now) == base + ".v" + Digits(was) ==> now == was
  {
    VersionsReadBack(base, was);
    VersionsReadBack(base, now);
  }
}
