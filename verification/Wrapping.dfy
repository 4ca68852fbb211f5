/**
 * The two comment wrappers: wrapComment in tools/eventgen/generate.go and
 * comment in tools/authzgen/main.go. Both fold words greedily; both count the
 * bytes of a line, not its characters.
 */
module Wrapping {
  import Ordering

  // ---------------------------------------------------------------- words

  // unicode.IsSpace.
  predicate IsSpace(c: char) {
    var n := c as int;
    || 9 <= n <= 13 || n == 32 || n == 0x85 || n == 0xA0 || n == 0x1680
    || 0x2000 <= n <= 0x200A || n == 0x2028 || n == 0x2029 || n == 0x202F || n == 0x205F || n == 0x3000
  }

  predicate Blank(s: string) {
    forall i | 0 <= i < |s| :: IsSpace(s[i])
  }

  predicate IsWord(s: string) {
    s != "" && forall i | 0 <= i < |s| :: !IsSpace(s[i])
  }

  function WordLength(s: string): (n: nat)
    ensures n <= |s| && (forall i | 0 <= i < n :: !IsSpace(s[i])) && (n < |s| ==> IsSpace(s[n]))
  {
    if s == "" || IsSpace(s[0]) then 0 else 1 + WordLength(s[1..])
  }

  // strings.Fields.
  function Fields(s: string): (words: seq<string>)
    ensures forall w | w in words :: IsWord(w)
    decreases |s|
  {
    if s == "" then []
    else if IsSpace(s[0]) then Fields(s[1..])
    else [s[..WordLength(s)]] + Fields(s[WordLength(s)..])
  }

  // The bytes of a character in UTF-8.
  function RuneLength(c: char): (n: nat)
    ensures 1 <= n <= 4
  {
    var n := c as int;
    if n < 0x80 then 1 else if n < 0x800 then 2 else if n < 0x10000 then 3 else 4
  }

  // len of a string.
  function Bytes(s: string): nat {
    if s == "" then 0 else Bytes(s[..|s| - 1]) + RuneLength(s[|s| - 1])
  }

  lemma {:induction false} BytesConcat(a: string, b: string)
    ensures Bytes(a + b) == Bytes(a) + Bytes(b)
    decreases |b|
  {
    if b == "" {
      assert a + b == a;
    } else {
      assert (a + b)[..|a + b| - 1] == a + b[..|b| - 1];
      BytesConcat(a, b[..|b| - 1]);
    }
  }

  // ---------------------------------------------------------------- lines

  type Line = seq<string>

  // A line as written: its words with one space between.
  function Written(line: Line): string {
    if line == [] then ""
    else if |line| == 1 then line[0]
    else Written(line[..|line| - 1]) + " " + line[|line| - 1]
  }

  // The bytes of the words, and one for each word.
  function Weight(line: Line): nat {
    if line == [] then 0 else Bytes(line[0]) + 1 + Weight(line[1..])
  }

  lemma {:induction false} WeightConcat(a: Line, b: Line)
    ensures Weight(a + b) == Weight(a) + Weight(b)
    decreases |a|
  {
    if a == [] {
      assert a + b == b;
    } else {
      assert (a + b)[1..] == a[1..] + b;
      WeightConcat(a[1..], b);
    }
  }

  lemma {:induction false} WrittenBytes(line: Line)
    requires line != []
    ensures Bytes(Written(line)) == Weight(line) - 1
    decreases |line|
  {
    if |line| > 1 {
      var init, last := line[..|line| - 1], line[|line| - 1];
      WrittenBytes(init);
      BytesConcat(Written(init), " ");
      BytesConcat(Written(init) + " ", last);
      assert Bytes(" ") == 1 by { assert " "[..0] == ""; }
      assert line == init + [last] && [last][1..] == [];
      WeightConcat(init, [last]);
    } else {
      assert line[1..] == [];
    }
  }

  // Short enough, or a word that would not fit anywhere.
  ghost predicate Fits(line: Line, width: nat) {
    |line| == 1 || (|line| > 1 && Bytes(Written(line)) <= width)
  }

  function Flatten(lines: seq<Line>): seq<string> {
    if lines == [] then [] else lines[0] + Flatten(lines[1..])
  }

  // A breaking of the words into lines that each fit.
  ghost predicate Legal(lines: seq<Line>, words: seq<string>, width: nat) {
    Flatten(lines) == words && forall i | 0 <= i < |lines| :: Fits(lines[i], width)
  }

  // No line could have taken the next line's first word as well.
  ghost predicate Full(lines: seq<Line>, width: nat) {
    forall i | 0 <= i < |lines| - 1 && lines[i] != [] && lines[i + 1] != [] ::
      Bytes(Written(lines[i])) + 1 + Bytes(lines[i + 1][0]) > width
  }

  // --------------------------------------------------------------- greedy

  // Greedy folding, with a line begun.
  function Folded(line: Line, words: seq<string>, width: nat): seq<Line>
    decreases |words|
  {
    if words == [] then [line]
    else if Bytes(Written(line)) + 1 + Bytes(words[0]) > width
    then [line] + Folded([words[0]], words[1..], width)
    else Folded(line + [words[0]], words[1..], width)
  }

  function Greedy(words: seq<string>, width: nat): seq<Line> {
    if words == [] then [] else Folded([words[0]], words[1..], width)
  }

  lemma WrittenSnoc(line: Line, word: string)
    requires line != []
    ensures Written(line + [word]) == Written(line) + " " + word
  {
    assert (line + [word])[..|line|] == line;
  }

  lemma Longer(line: Line, word: string, more: Line)
    requires line != []
    ensures Bytes(Written(line + ([word] + more))) >= Bytes(Written(line)) + 1 + Bytes(word)
    ensures more == [] ==> Bytes(Written(line + ([word] + more))) == Bytes(Written(line)) + 1 + Bytes(word)
  {
    WrittenBytes(line);
    WrittenBytes(line + ([word] + more));
    WeightConcat(line, [word] + more);
    WeightConcat([word], more);
    assert [word][1..] == [];
  }

  // Two ways to cut one sequence: the longer front starts with the shorter.
  lemma Cut<T>(a: seq<T>, b: seq<T>, c: seq<T>, d: seq<T>) returns (m: seq<T>)
    requires a + b == c + d && |a| <= |c|
    ensures c == a + m && b == m + d
  {
    m := c[|a|..];
    assert a == (a + b)[..|a|] == (c + d)[..|a|] == c[..|a|];
    assert b == (a + b)[|a|..] == (c + d)[|a|..] == m + d;
  }

  lemma FoldedStops(line: Line, words: seq<string>, width: nat)
    requires words != [] ==> Bytes(Written(line)) + 1 + Bytes(words[0]) > width
    ensures Folded(line, words, width) == [line + []] + Greedy(words, width) && words == [] + words
  {
    assert line + [] == line;
  }

  lemma FoldedTakes(line: Line, word: string, tail: seq<string>, width: nat)
    requires line != [] && Bytes(Written(line)) + 1 + Bytes(word) <= width
    ensures Folded(line, [word] + tail, width) == Folded(line + [word], tail, width)
    ensures Bytes(Written(line + [word])) <= width
  {
    assert ([word] + tail)[1..] == tail && [word] + [] == [word];
    Longer(line, word, []);
  }

  lemma Regroup(line: Line, word: string, more: seq<string>, rest: seq<string>)
    ensures line + [word] + more == line + ([word] + more)
    ensures [word] + (more + rest) == ([word] + more) + rest
    ensures more == [] ==> line + ([word] + more) == line + [word]
  {
  }

  // What folding puts on the line begun: words that fit, and no fewer than fit.
  lemma {:induction false} FoldedSplits(line: Line, words: seq<string>, width: nat)
    returns (mine: seq<string>, rest: seq<string>)
    requires line != []
    ensures words == mine + rest
    ensures Folded(line, words, width) == [line + mine] + Greedy(rest, width)
    ensures mine != [] ==> Bytes(Written(line + mine)) <= width
    ensures rest != [] ==> Bytes(Written(line + mine)) + 1 + Bytes(rest[0]) > width
    decreases |words|
  {
    if words == [] || Bytes(Written(line)) + 1 + Bytes(words[0]) > width {
      FoldedStops(line, words, width);
      mine, rest := [], words;
      assert line + mine == line;
    } else {
      var word, tail := words[0], words[1..];
      assert words == [word] + tail;
      FoldedTakes(line, word, tail, width);
      var more;
      more, rest := FoldedSplits(line + [word], tail, width);
      Regroup(line, word, more, rest);
      mine := [word] + more;
    }
  }

  lemma GreedySplits(words: seq<string>, width: nat) returns (first: Line, rest: seq<string>)
    requires words != []
    ensures words == first + rest && first != []
    ensures Greedy(words, width) == [first] + Greedy(rest, width)
    ensures Fits(first, width)
    ensures rest != [] ==> Bytes(Written(first)) + 1 + Bytes(rest[0]) > width
  {
    var word, tail := words[0], words[1..];
    assert Greedy(words, width) == Folded([word], tail, width);
    var more;
    more, rest := FoldedSplits([word], tail, width);
    first := [word] + more;
    assert words == [word] + tail;
    Regroup([], word, more, rest);
  }

  // A line that is full is as long as any that fits in its place.
  lemma FullIsLongest(first: Line, rest: seq<string>, line: Line, others: seq<string>, width: nat)
    requires first + rest == line + others && first != [] && Fits(line, width)
    requires rest != [] ==> Bytes(Written(first)) + 1 + Bytes(rest[0]) > width
    ensures |line| <= |first|
  {
    if |line| > |first| {
      var m := Cut(first, rest, line, others);
      assert m == [m[0]] + m[1..] && rest[0] == m[0];
      Longer(first, m[0], m[1..]);
    }
  }

  lemma OneMoreLine(first: Line, rest: seq<Line>, words: seq<string>, width: nat)
    requires Fits(first, width) && Legal(rest, words, width) && Full(rest, width)
    requires rest != [] && rest[0] != [] ==> Bytes(Written(first)) + 1 + Bytes(rest[0][0]) > width
    ensures Legal([first] + rest, first + words, width) && Full([first] + rest, width)
  {
    var lines := [first] + rest;
    assert lines[1..] == rest;
    forall i | 0 <= i < |lines| ensures Fits(lines[i], width) {
      if i > 0 { assert lines[i] == rest[i - 1]; }
    }
    forall i | 0 <= i < |lines| - 1 && lines[i] != [] && lines[i + 1] != []
      ensures Bytes(Written(lines[i])) + 1 + Bytes(lines[i + 1][0]) > width
    {
      assert lines[i + 1] == rest[i];
      if i > 0 { assert lines[i] == rest[i - 1]; }
    }
  }

  // The folding keeps exactly the words, in order, on lines that each fit, and
  // fills each line before it starts the next.
  lemma {:induction false} GreedyIsLegalAndFull(words: seq<string>, width: nat)
    ensures Legal(Greedy(words, width), words, width) && Full(Greedy(words, width), width)
    decreases |words|
  {
    if words != [] {
      var first, rest := GreedySplits(words, width);
      GreedyIsLegalAndFull(rest, width);
      if rest != [] {
        var second, others := GreedySplits(rest, width);
        assert second[0] == rest[0];
      }
      OneMoreLine(first, Greedy(rest, width), rest, width);
    }
  }

  // A part of a line that fits, fits.
  lemma TailFits(before: Line, line: Line, width: nat)
    requires Fits(before + line, width) && line != []
    ensures Fits(line, width)
  {
    if |line| > 1 {
      WeightConcat(before, line);
      WrittenBytes(before + line);
      WrittenBytes(line);
    }
  }

  lemma LegalRest(lines: seq<Line>, words: seq<string>, width: nat)
    requires lines != [] && Legal(lines, words, width)
    ensures words == lines[0] + Flatten(lines[1..])
    ensures Fits(lines[0], width) && Legal(lines[1..], Flatten(lines[1..]), width)
  {
    forall i | 0 <= i < |lines[1..]| ensures Fits(lines[1..][i], width) { assert lines[1..][i] == lines[i + 1]; }
  }

  // Greedy stays ahead: folding some words takes no more lines than any legal
  // breaking of those words with others before them.
  lemma {:induction false} GreedyStaysAhead(lines: seq<Line>, lead: seq<string>, words: seq<string>, width: nat)
    requires Legal(lines, lead + words, width)
    ensures |Greedy(words, width)| <= |lines|
    decreases |lines|
  {
    if lines != [] && words != [] {
      LegalRest(lines, lead + words, width);
      var line, others := lines[0], Flatten(lines[1..]);
      if |line| <= |lead| {
        var left := Cut(line, others, lead, words);
        GreedyStaysAhead(lines[1..], left, words, width);
      } else {
        var part := Cut(lead, words, line, others);
        TailFits(lead, part, width);
        var first, rest := GreedySplits(words, width);
        FullIsLongest(first, rest, part, others, width);
        var extra := Cut(part, others, first, rest);
        GreedyStaysAhead(lines[1..], extra, rest, width);
      }
    }
  }

  // No legal breaking uses fewer lines.
  lemma GreedyIsOptimal(words: seq<string>, width: nat, lines: seq<Line>)
    requires Legal(lines, words, width)
    ensures |Greedy(words, width)| <= |lines|
  {
    assert [] + words == words;
    GreedyStaysAhead(lines, [], words, width);
  }

  // Filling every line leaves no choice at all.
  lemma {:induction false} FullBreakingIsGreedy(words: seq<string>, width: nat, lines: seq<Line>)
    requires Legal(lines, words, width) && Full(lines, width)
    ensures lines == Greedy(words, width)
    decreases |lines|
  {
    if lines != [] {
      LegalRest(lines, words, width);
      var line, others := lines[0], Flatten(lines[1..]);
      var first, rest := GreedySplits(words, width);
      FullLineIsFirst(lines, words, width, first, rest);
      FullRest(lines, width);
      FullBreakingIsGreedy(rest, width, lines[1..]);
      assert lines == [lines[0]] + lines[1..];
    }
  }

  lemma FullRest(lines: seq<Line>, width: nat)
    requires lines != [] && Full(lines, width)
    ensures Full(lines[1..], width)
  {
    var others := lines[1..];
    forall i | 0 <= i < |others| - 1 && others[i] != [] && others[i + 1] != []
      ensures Bytes(Written(others[i])) + 1 + Bytes(others[i + 1][0]) > width
    {
      assert others[i] == lines[i + 1] && others[i + 1] == lines[i + 2];
    }
  }

  lemma FullLineIsFirst(lines: seq<Line>, words: seq<string>, width: nat, first: Line, rest: seq<string>)
    requires lines != [] && Legal(lines, words, width) && Full(lines, width)
    requires words == first + rest && first != [] && Fits(first, width)
    requires rest != [] ==> Bytes(Written(first)) + 1 + Bytes(rest[0]) > width
    ensures lines[0] == first && Flatten(lines[1..]) == rest
  {
    LegalRest(lines, words, width);
    var line, others := lines[0], Flatten(lines[1..]);
    FullIsLongest(first, rest, line, others, width);
    if others != [] {
      LegalRest(lines[1..], others, width);
      assert lines[1] == lines[1..][0] && others[0] == lines[1][0];
      assert Bytes(Written(lines[0])) + 1 + Bytes(lines[1][0]) > width;
    }
    FullIsLongest(line, others, first, rest, width);
    var nothing := Cut(line, others, first, rest);
  }

  // ---------------------------------------------------- reading them back

  lemma {:induction false} FieldsOfWord(word: string, rest: string)
    requires IsWord(word) && (rest == "" || IsSpace(rest[0]))
    ensures Fields(word + rest) == [word] + Fields(rest)
  {
    var n := WordLength(word + rest);
    forall i | 0 <= i < |word| ensures !IsSpace((word + rest)[i]) { assert (word + rest)[i] == word[i]; }
    if rest != "" { assert (word + rest)[|word|] == rest[0]; }
    assert n == |word|;
    assert (word + rest)[..n] == word && (word + rest)[n..] == rest;
  }

  lemma {:induction false} WrittenConsed(line: Line)
    requires |line| > 1
    ensures Written(line) == line[0] + " " + Written(line[1..])
    decreases |line|
  {
    if |line| > 2 {
      var init := line[..|line| - 1];
      WrittenConsed(init);
      assert line[1..][..|line| - 2] == init[1..];
    }
  }

  lemma SpaceSkipped(text: string)
    ensures Fields(" " + text) == Fields(text)
  {
    assert (" " + text)[1..] == text;
  }

  lemma FieldsOfPair(word: string, text: string)
    requires IsWord(word)
    ensures Fields(word + " " + text) == [word] + Fields(text)
  {
    assert word + " " + text == word + (" " + text);
    FieldsOfWord(word, " " + text);
    SpaceSkipped(text);
  }

  // Splitting a written line gives its words back.
  lemma {:induction false} FieldsOfWritten(line: Line)
    requires forall w | w in line :: IsWord(w)
    ensures Fields(Written(line)) == line
    decreases |line|
  {
    if |line| == 1 {
      FieldsOfWord(line[0], "");
      assert line[0] + "" == line[0];
    } else if |line| > 1 {
      WrittenConsed(line);
      FieldsOfWritten(line[1..]);
      FieldsOfPair(line[0], Written(line[1..]));
      assert [line[0]] + line[1..] == line;
    }
  }

  lemma {:induction false} FlattenContains(lines: seq<Line>, i: nat, w: string)
    requires i < |lines| && w in lines[i]
    ensures w in Flatten(lines)
    decreases i
  {
    if i > 0 {
      FlattenContains(lines[1..], i - 1, w);
    }
  }

  // Every line of the folding reads back as its words, and together they are
  // the words of the text.
  lemma FoldedLinesReadBack(text: string, width: nat)
    ensures Flatten(Greedy(Fields(text), width)) == Fields(text)
    ensures forall i | 0 <= i < |Greedy(Fields(text), width)| ::
      Fields(Written(Greedy(Fields(text), width)[i])) == Greedy(Fields(text), width)[i]
  {
    var lines := Greedy(Fields(text), width);
    GreedyIsLegalAndFull(Fields(text), width);
    forall i | 0 <= i < |lines| ensures Fields(Written(lines[i])) == lines[i] {
      forall w | w in lines[i] ensures IsWord(w) { FlattenContains(lines, i, w); }
      FieldsOfWritten(lines[i]);
    }
  }

  // -------------------------------------------------------- the two loops

  // strings.Join.
  function Join(parts: seq<string>, separator: string): string {
    if parts == [] then ""
    else if |parts| == 1 then parts[0]
    else parts[0] + separator + Join(parts[1..], separator)
  }

  function AllWritten(lines: seq<Line>): seq<string> {
    Ordering.Map(Written, lines)
  }

  lemma LineDone(done: seq<Line>, line: Line, rest: seq<Line>)
    ensures AllWritten(done + [line]) == AllWritten(done) + [Written(line)]
    ensures done + ([line] + rest) == (done + [line]) + rest
  {
    Ordering.MapSnoc(Written, done, line);
    Ordering.Associate(done, [line], rest);
  }

  // One word further along.
  lemma FoldedStep(line: Line, words: seq<string>, i: nat, width: nat)
    requires i < |words|
    ensures Folded(line, words[i..], width) ==
      if Bytes(Written(line)) + 1 + Bytes(words[i]) > width
      then [line] + Folded([words[i]], words[i + 1..], width)
      else Folded(line + [words[i]], words[i + 1..], width)
  {
    assert words[i..][1..] == words[i + 1..];
  }

  method WrapComment(text: string, prefix: string) returns (r: string)
    ensures r == Join(AllWritten(Greedy(Fields(text), 72)), "\n" + prefix)
  {
    var words := Fields(text);
    var lines: seq<string> := [];
    var line := "";
    ghost var done: seq<Line>, current: Line := [], [];
    for i := 0 to |words|
      invariant lines == AllWritten(done) && line == Written(current)
      invariant current == [] <==> i == 0
      invariant line == "" <==> i == 0
      invariant i == 0 ==> done == []
      invariant i > 0 ==> Greedy(words, 72) == done + Folded(current, words[i..], 72)
    {
      var word := words[i];
      assert IsWord(word);
      if line == "" {
        line := word;
        current := [word];
        continue;
      }
      FoldedStep(current, words, i, 72);
      if Bytes(line) + 1 + Bytes(word) > 72 {
        lines := lines + [line];
        LineDone(done, current, Folded([word], words[i + 1..], 72));
        done := done + [current];
        line := word;
        current := [word];
        continue;
      }
      WrittenSnoc(current, word);
      line := line + " " + word;
      current := current + [word];
    }
    if line != "" {
      lines := lines + [line];
      Ordering.MapSnoc(Written, done, current);
      assert words[|words|..] == [];
    }
    return Join(lines, "\n" + prefix);
  }

  // What comment writes: a blank line first, exactly when the first word is 68
  // bytes or longer, and then the folding at 68.
  function Commented(words: seq<string>): seq<Line> {
    (if words != [] && Bytes(words[0]) >= 68 then [[]] else []) + Greedy(words, 68)
  }

  function Indented(lines: seq<string>, indent: string): (r: seq<string>)
    ensures |r| == |lines| && forall i | 0 <= i < |lines| :: r[i] == indent + "// " + lines[i]
  {
    seq(|lines|, i requires 0 <= i < |lines| => indent + "// " + lines[i])
  }

  method Comment(reason: string, indent: string) returns (r: string)
    ensures r == Join(Indented(AllWritten(Commented(Fields(reason))), indent), "\n")
  {
    var words := Fields(reason);
    var lines := CommentLines(words);
    for i := 0 to |lines|
      invariant |lines| == |Commented(words)|
      invariant forall k | 0 <= k < i :: lines[k] == indent + "// " + AllWritten(Commented(words))[k]
      invariant forall k | i <= k < |lines| :: lines[k] == AllWritten(Commented(words))[k]
    {
      lines := lines[i := indent + "// " + lines[i]];
    }
    assert lines == Indented(AllWritten(Commented(words)), indent);
    return Join(lines, "\n");
  }

  // The blank line is what folding does when it starts from an empty line
  // rather than from the first word.
  lemma CommentedFoldsFromNothing(words: seq<string>)
    requires words != []
    ensures Commented(words) == Folded([], words, 68)
  {
    assert [] + [words[0]] == [words[0]];
  }

  method CommentLines(words: seq<string>) returns (lines: seq<string>)
    requires forall w | w in words :: IsWord(w)
    ensures lines == AllWritten(Commented(words))
  {
    lines := [];
    if words == [] { return; }
    CommentedFoldsFromNothing(words);
    var current := "";
    ghost var done: seq<Line>, line: Line := [], [];
    for i := 0 to |words|
      invariant lines == AllWritten(done) && current == Written(line)
      invariant (line == [] <==> i == 0) && (current == "" <==> i == 0)
      invariant Commented(words) == done + Folded(line, words[i..], 68)
    {
      var word := words[i];
      assert words[i..] == [word] + words[i + 1..] && IsWord(word);
      if Bytes(current) + Bytes(word) + 1 > 68 {
        lines := lines + [current];
        LineDone(done, line, Folded([word], words[i + 1..], 68));
        done := done + [line];
        current := word;
        line := [word];
        continue;
      }
      if current == "" {
        current := word;
      } else {
        assert (line + [word])[..|line|] == line;
        current := current + " " + word;
      }
      line := line + [word];
    }
    if current != "" {
      lines := lines + [current];
      Ordering.MapSnoc(Written, done, line);
      assert words[|words|..] == [];
    }
  }

  // ------------------------------------------------------- spaces and bytes

  // What separates words, and how many bytes a character takes (RFC 3629, section 3).
  lemma CharactersAreRead(c: char)
    ensures IsSpace(c) <==> c in {
      '\t', '\n', '\U{000B}', '\U{000C}', '\r', ' ', '\U{0085}', '\U{00A0}', '\U{1680}', '\U{2000}', '\U{2001}',
      '\U{2002}', '\U{2003}', '\U{2004}', '\U{2005}', '\U{2006}', '\U{2007}', '\U{2008}', '\U{2009}', '\U{200A}',
      '\U{2028}', '\U{2029}', '\U{202F}', '\U{205F}', '\U{3000}'}
    ensures RuneLength(c) == 1 <==> c <= '\U{007F}'
    ensures RuneLength(c) == 2 <==> '\U{0080}' <= c <= '\U{07FF}'
    ensures RuneLength(c) == 3 <==> '\U{0800}' <= c <= '\U{FFFF}'
    ensures RuneLength(c) == 4 <==> '\U{10000}' <= c
  {
  }

  // Any space in front of a text is skipped, as " " is.
  lemma SpacesAreSkipped(c: char, text: string)
    requires IsSpace(c)
    ensures Fields([c] + text) == Fields(text)
  {
    assert ([c] + text)[1..] == text;
  }

  lemma {:induction false} AsciiBytes(s: string)
    requires forall i | 0 <= i < |s| :: s[i] <= '\U{007F}'
    ensures Bytes(s) == |s|
    decreases |s|
  {
    if s != "" {
      AsciiBytes(s[..|s| - 1]);
    }
  }

  // The lines of a comment, between separators.
  lemma {:induction false} JoinSnoc(parts: seq<string>, last: string, separator: string)
    ensures Join(parts + [last], separator) == if parts == [] then last else Join(parts, separator) + (separator + last)
    decreases |parts|
  {
    if parts == [] {
      assert parts + [last] == [last];
    } else {
      assert (parts + [last])[1..] == parts[1..] + [last];
      JoinSnoc(parts[1..], last, separator);
      if |parts| > 1 {
        var tail := Join(parts[1..], separator);
        assert parts[0] + separator + (tail + (separator + last)) == parts[0] + separator + tail + (separator + last);
      } else {
        assert parts[0] + separator + last == parts[0] + (separator + last);
      }
    }
  }

  // A comment's lines hold its words in order, on 68 bytes unless a word alone takes
  // more, each filled before the next is begun; and a first word of 68 bytes or more
  // leaves a blank line before it.
  lemma CommentIsLegalAndFull(words: seq<string>)
    ensures Flatten(Commented(words)) == words
    ensures forall line | line in Commented(words) :: |line| <= 1 || Bytes(Written(line)) <= 68
    ensures Full(Commented(words), 68)
    ensures words != [] ==> (Commented(words)[0] == [] <==> Bytes(words[0]) >= 68)
  {
    GreedyIsLegalAndFull(words, 68);
    var lines := Greedy(words, 68);
    forall line | line in lines ensures |line| <= 1 || Bytes(Written(line)) <= 68 {
      var i :| 0 <= i < |lines| && lines[i] == line;
      assert Fits(lines[i], 68);
    }
    if words != [] {
      var first, rest := GreedySplits(words, 68);
      if Bytes(words[0]) >= 68 {
        assert Commented(words) == [[]] + lines && Commented(words)[1..] == lines;
        AfterABlankLine(lines, 68);
      } else {
        assert Commented(words) == lines;
      }
    }
  }

  lemma AfterABlankLine(lines: seq<Line>, width: nat)
    requires Full(lines, width)
    ensures Full([[]] + lines, width)
  {
    var all := [[]] + lines;
    forall i | 0 <= i < |all| - 1 && all[i] != [] && all[i + 1] != []
      ensures Bytes(Written(all[i])) + 1 + Bytes(all[i + 1][0]) > width
    {
      assert all[i] == lines[i - 1] && all[i + 1] == lines[i];
    }
  }
}
