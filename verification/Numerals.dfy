/** Decimal numerals: what Go prints with %d, and what strconv.Atoi reads. */
module Numerals {

  const DIGITS := "0123456789"

  predicate IsDigit(c: char) {
    '0' <= c <= '9'
  }

  predicate AllDigits(s: string) {
    forall i | 0 <= i < |s| :: IsDigit(s[i])
  }

  // What %d prints of a number that is not negative.
  function Digits(n: nat): (r: string)
    ensures r != "" && AllDigits(r)
  {
    if n < 10 then [DIGITS[n]] else Digits(n / 10) + [DIGITS[n % 10]]
  }

  // What %d prints.
  function Shown(n: int): string {
    if n < 0 then "-" + Digits(-n) else Digits(n)
  }

  // The number digits read as, from the left.
  function Decimal(digits: string): nat
    requires AllDigits(digits)
  {
    if digits == "" then 0
    else 10 * Decimal(digits[..|digits| - 1]) + (digits[|digits| - 1] as int - '0' as int)
  }

  // ------------------------------------------------------- what they amount to

  function Worth(c: char): nat {
    match c
    case '0' => 0
    case '1' => 1
    case '2' => 2
    case '3' => 3
    case '4' => 4
    case '5' => 5
    case '6' => 6
    case '7' => 7
    case '8' => 8
    case '9' => 9
    case _ => 0
  }

  function Power10(places: nat): nat {
    if places == 0 then 1 else 10 * Power10(places - 1)
  }

  // Each digit counts for its worth times the power of ten of its place.
  function PlaceValue(digits: string): nat {
    if digits == "" then 0 else Worth(digits[0]) * Power10(|digits| - 1) + PlaceValue(digits[1..])
  }

  lemma DigitIsWorth(c: char)
    ensures IsDigit(c) <==> c in "0123456789"
    ensures IsDigit(c) ==> Worth(c) == c as int - '0' as int
    ensures forall n: nat | n < 10 :: Worth(DIGITS[n]) == n
  {
    if IsDigit(c) { assert "0123456789"[c as int - '0' as int] == c; }
  }

  lemma {:induction false} PlaceValueSnoc(digits: string, last: char)
    ensures PlaceValue(digits + [last]) == 10 * PlaceValue(digits) + Worth(last)
    decreases |digits|
  {
    if digits == "" {
      assert [last][1..] == "" && Power10(0) == 1;
    } else {
      PlaceValueSnoc(digits[1..], last);
      assert (digits + [last])[1..] == digits[1..] + [last];
      assert Power10(|digits|) == 10 * Power10(|digits| - 1);
      TenTimes(Worth(digits[0]), Power10(|digits| - 1));
    }
  }

  lemma TenTimes(a: nat, b: nat)
    ensures a * (10 * b) == 10 * (a * b)
  {
  }

  // Reading a numeral gives its place value.
  lemma {:induction false} ReadsItsPlaceValue(digits: string)
    requires AllDigits(digits)
    ensures Decimal(digits) == PlaceValue(digits)
    decreases |digits|
  {
    if digits != "" {
      var front, last := digits[..|digits| - 1], digits[|digits| - 1];
      assert digits == front + [last];
      DigitIsWorth(last);
      ReadsItsPlaceValue(front);
      PlaceValueSnoc(front, last);
    }
  }

  // A number reads back from what it prints, which starts with a zero only when
  // it is zero.
  lemma {:induction false} NumbersReadBack(n: nat)
    ensures PlaceValue(Digits(n)) == n
    ensures Digits(n)[0] == '0' ==> n == 0
    decreases n
  {
    DigitIsWorth('0');
    if n < 10 {
      assert Digits(n) == "" + [DIGITS[n]];
      PlaceValueSnoc("", DIGITS[n]);
    } else {
      NumbersReadBack(n / 10);
      PlaceValueSnoc(Digits(n / 10), DIGITS[n % 10]);
    }
  }

  lemma LeadingZeroIsNothing(digits: string)
    ensures PlaceValue("0" + digits) == PlaceValue(digits)
  {
    assert ("0" + digits)[1..] == digits && Worth('0') == 0;
  }

  lemma DigitsInjective(m: nat, n: nat)
    requires Digits(m) == Digits(n)
    ensures m == n
  {
    NumbersReadBack(m);
    NumbersReadBack(n);
  }
}
