/**
 * Go's %q for strings (strconv.Quote): what separates a quoted name from the
 * words that follow it in a reason. Which runes print as themselves is a table
 * of the unicode package, so it is a parameter and nothing depends on it.
 */
module Quoting {
  import Ordering

  const HEX := "0123456789abcdef"

  function Hex(n: nat, width: nat): (r: string)
    ensures |r| == width
  {
    if width == 0 then "" else Hex(n / 16, width - 1) + [HEX[n % 16]]
  }

  function Power16(width: nat): nat {
    if width == 0 then 1 else 16 * Power16(width - 1)
  }

  function HexWorth(c: char): nat {
    match c
    case '0' => 0
    case '1' => 1
    case '2' => 2
    case '3' => 3
    case '4' => 4
    case '5' => 5
    case '6' => 6
    case '7' => 7
    case '8' => 8
    case '9' => 9
    case 'a' => 10
    case 'b' => 11
    case 'c' => 12
    case 'd' => 13
    case 'e' => 14
    case 'f' => 15
    case _ => 0
  }

  // The number hexadecimal digits read as.
  function HexValue(s: string): nat {
    if s == "" then 0 else 16 * HexValue(s[..|s| - 1]) + HexWorth(s[|s| - 1])
  }

  lemma {:induction false} HexReadsBack(n: nat, width: nat)
    requires n < Power16(width)
    ensures HexValue(Hex(n, width)) == n
    decreases width
  {
    if width > 0 {
      HexReadsBack(n / 16, width - 1);
      assert Hex(n, width)[..width - 1] == Hex(n / 16, width - 1);
      HexDigitIsWorth(n % 16);
    }
  }

  lemma HexDigitIsWorth(n: nat)
    requires n < 16
    ensures HexWorth(HEX[n]) == n
  {
    assert HEX[..10] == "0123456789" && HEX[10..] == "abcdef";
  }

  function Escape(c: char, printable: char -> bool): (r: string)
    ensures r != "" && r[0] != '"'
  {
    var n := c as int;
    if c == '"' || c == '\\' then ['\\', c]
    else if printable(c) then [c]
    else if n == 7 then "\\a"
    else if n == 8 then "\\b"
    else if n == 12 then "\\f"
    else if n == 10 then "\\n"
    else if n == 13 then "\\r"
    else if n == 9 then "\\t"
    else if n == 11 then "\\v"
    else if n < 32 || n == 127 then "\\x" + Hex(n, 2)
    else if n < 0x10000 then "\\u" + Hex(n, 4)
    else "\\U" + Hex(n, 8)
  }

  // What follows an opening quote: the escapes, the closing quote, the rest.
  function Closed(s: string, rest: string, printable: char -> bool): (r: string)
    ensures r != "" && (r[0] == '"' <==> s == "")
  {
    if s == "" then ['"'] + rest
    else Escape(s[0], printable) + Closed(s[1..], rest, printable)
  }

  function Quote(s: string, printable: char -> bool): string {
    ['"'] + Closed(s, "", printable)
  }

  lemma PowersOf16()
    ensures Power16(2) == 0x100 && Power16(4) == 0x10000 && Power16(8) == 0x1_0000_0000
  {
    assert Power16(1) == 16;
    assert Power16(3) == 0x1000;
    assert Power16(5) == 0x100000;
    assert Power16(6) == 0x1000000;
    assert Power16(7) == 0x10000000;
  }

  lemma LongEscapeIsNumber(c: char, printable: char -> bool)
    requires |Escape(c, printable)| > 2
    ensures HexValue(Escape(c, printable)[2..]) == c as int
  {
    var n := c as int;
    var width := if n < 32 || n == 127 then 2 else if n < 0x10000 then 4 else 8;
    PowersOf16();
    assert Escape(c, printable)[2..] == Hex(n, width);
    HexReadsBack(n, width);
  }

  // No escape is the beginning of another one.
  lemma EscapeIsPrefixCode(c: char, u: string, d: char, v: string, printable: char -> bool)
    requires Escape(c, printable) + u == Escape(d, printable) + v
    ensures c == d && u == v
  {
    var x, y := Escape(c, printable), Escape(d, printable);
    assert (x + u)[0] == x[0] && (y + v)[0] == y[0];
    if |x| > 1 && |y| > 1 {
      assert (x + u)[1] == x[1] && (y + v)[1] == y[1];
    }
    assert |x| == |y|;
    assert x == (x + u)[..|x|] == (y + v)[..|x|] == y;
    assert u == (x + u)[|x|..] == (y + v)[|x|..] == v;
    if |x| > 2 {
      assert x[2..] == y[2..];
      LongEscapeIsNumber(c, printable);
      LongEscapeIsNumber(d, printable);
    }
  }

  lemma {:induction false} ClosedSplits(s: string, rest: string, printable: char -> bool)
    ensures Closed(s, rest, printable) == Closed(s, "", printable) + rest
    decreases |s|
  {
    if s == "" {
      assert ['"'] + "" == ['"'];
    } else {
      ClosedSplits(s[1..], rest, printable);
      var e, tail := Escape(s[0], printable), Closed(s[1..], "", printable);
      assert e + (tail + rest) == (e + tail) + rest;
    }
  }

  lemma {:induction false} ClosedSelfDelimiting(
      s: string, u: string, t: string, v: string, printable: char -> bool)
    requires Closed(s, u, printable) == Closed(t, v, printable)
    ensures s == t && u == v
    decreases |s|
  {
    if s == "" || t == "" {
      assert u == (['"'] + u)[1..] && v == (['"'] + v)[1..];
    } else {
      EscapeIsPrefixCode(s[0], Closed(s[1..], u, printable), t[0], Closed(t[1..], v, printable), printable);
      ClosedSelfDelimiting(s[1..], u, t[1..], v, printable);
      assert s == [s[0]] + s[1..] && t == [t[0]] + t[1..];
    }
  }

  lemma QuoteIsClosed(s: string, rest: string, printable: char -> bool)
    ensures Quote(s, printable) + rest == ['"'] + Closed(s, rest, printable)
  {
    ClosedSplits(s, rest, printable);
    Ordering.Associate(['"'], Closed(s, "", printable), rest);
  }

  // A quoted string ends where its quotes end, whatever follows it.
  lemma QuoteSelfDelimiting(s: string, u: string, t: string, v: string, printable: char -> bool)
    requires Quote(s, printable) + u == Quote(t, printable) + v
    ensures s == t && u == v
  {
    QuoteIsClosed(s, u, printable);
    QuoteIsClosed(t, v, printable);
    SameTail('"', Closed(s, u, printable), Closed(t, v, printable));
    ClosedSelfDelimiting(s, u, t, v, printable);
  }

  lemma SameTail(c: char, a: string, b: string)
    requires [c] + a == [c] + b
    ensures a == b
  {
    assert a == ([c] + a)[1..] == ([c] + b)[1..] == b;
  }

  // ------------------------------------------------------------ the escapes

  // Text that prints as it is stands between the quotes unchanged.
  lemma {:induction false} PlainTextIsQuotedAsItIs(s: string, printable: char -> bool)
    requires forall c | c in s :: printable(c) && c != '\"' && c != '\\'
    ensures Quote(s, printable) == "\"" + s + "\""
  {
    PlainTextIsClosed(s, printable);
  }

  lemma {:induction false} PlainTextIsClosed(s: string, printable: char -> bool)
    requires forall c | c in s :: printable(c) && c != '\"' && c != '\\'
    ensures Closed(s, "", printable) == s + "\""
    decreases |s|
  {
    if s != "" {
      forall c | c in s[1..] ensures c in s {}
      PlainTextIsClosed(s[1..], printable);
      assert [s[0]] + (s[1..] + "\"") == s + "\"";
    }
  }

  // One character after another.
  lemma QuotedOneByOne(c: char, s: string, printable: char -> bool)
    ensures Quote([c] + s, printable) == "\"" + Escape(c, printable) + Quote(s, printable)[1..]
  {
    assert ([c] + s)[1..] == s;
  }

  // What is written for a character that does not stand for itself.
  lemma EscapesAreWritten(c: char, printable: char -> bool)
    ensures c == '\"' ==> Escape(c, printable) == "\\\""
    ensures c == '\\' ==> Escape(c, printable) == "\\\\"
    ensures printable(c) && c != '\"' && c != '\\' ==> Escape(c, printable) == [c]
    ensures !printable(c) && c == '\n' ==> Escape(c, printable) == "\\n"
    ensures !printable(c) && c == '\r' ==> Escape(c, printable) == "\\r"
    ensures !printable(c) && c == '\t' ==> Escape(c, printable) == "\\t"
    ensures !printable(c) && c as int == 7 ==> Escape(c, printable) == "\\a"
    ensures !printable(c) && c as int == 8 ==> Escape(c, printable) == "\\b"
    ensures !printable(c) && c as int == 11 ==> Escape(c, printable) == "\\v"
    ensures !printable(c) && c as int == 12 ==> Escape(c, printable) == "\\f"
  {
  }

  // Every other one is written by its number, in two, four or eight hexadecimal
  // digits.
  lemma NumbersAreWritten(c: char, printable: char -> bool)
    requires !printable(c) && c != '\"' && c != '\\' && !(7 <= c as int <= 13)
    ensures var e, n := Escape(c, printable), c as int;
      && |e| == (if n < 32 || n == 127 then 4 else if n < 65536 then 6 else 10)
      && e[..2] == (if n < 32 || n == 127 then "\\x" else if n < 65536 then "\\u" else "\\U")
      && HexValue(e[2..]) == n
  {
    LongEscapeIsNumber(c, printable);
  }
}
