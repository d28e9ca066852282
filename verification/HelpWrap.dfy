/**
 Help text wrapped at a column, on word boundaries. The second user of the greedy cut:
 here a group is a line and it fits when it is one word, however long, or no longer than
 the width. Lengths are in bytes of UTF-8, as the source's are.
*/
module HelpWrap {
  import opened Greedy

  /** The white space of Unicode, which is what separates the words of a text. */
  predicate IsSpace(c: char) {
    var n := c as int;
    || 0x09 <= n <= 0x0D || n == 0x20 || n == 0x85 || n == 0xA0 || n == 0x1680
    || 0x2000 <= n <= 0x200A || n == 0x2028 || n == 0x2029 || n == 0x202F || n == 0x205F || n == 0x3000
  }

  function Closed(word: string): seq<string> {
    if word == [] then [] else [word]
  }

  /** The words of s, with word the one being read. */
  function Words(word: string, s: string): seq<string>
    decreases |s|
  {
    if s == [] then Closed(word)
    else if IsSpace(s[0]) then Closed(word) + Words([], s[1..])
    else Words(word + [s[0]], s[1..])
  }

  function Fields(s: string): seq<string> {
    Words([], s)
  }

  ghost predicate IsWord(w: string) {
    w != [] && forall i | 0 <= i < |w| :: !IsSpace(w[i])
  }

  ghost predicate AreWords(words: seq<string>) {
    forall i | 0 <= i < |words| :: IsWord(words[i])
  }

  function RuneBytes(c: char): nat {
    var n := c as int;
    if n < 0x80 then 1 else if n < 0x800 then 2 else if n < 0x1_0000 then 3 else 4
  }

  function Bytes(s: string): nat {
    if s == [] then 0 else Bytes(s[..|s| - 1]) + RuneBytes(s[|s| - 1])
  }

  function LineBytes(words: seq<string>): nat {
    if words == [] then 0
    else if |words| == 1 then Bytes(words[0])
    else LineBytes(words[..|words| - 1]) + 1 + Bytes(words[|words| - 1])
  }

  function FitsLine(width: int): seq<string> -> bool {
    line => |line| <= 1 || LineBytes(line) <= width
  }

  function LineText(line: seq<string>): string {
    if line == [] then []
    else if |line| == 1 then line[0]
    else LineText(line[..|line| - 1]) + " " + line[|line| - 1]
  }

  function Page(lines: seq<seq<string>>): string {
    if lines == [] then []
    else if |lines| == 1 then LineText(lines[0])
    else Page(lines[..|lines| - 1]) + "\n" + LineText(lines[|lines| - 1])
  }

  method Wrap(s: string, width: int) returns (r: string)
    ensures r == Page(Cut(FitsLine(width), [], Fields(s)))
  {
    var words := Fields(s);
    if |words| == 0 {
      return "";
    }
    var b := "";
    var line := words[0];
    // The lines written so far, and the words of the one being filled.
    ghost var done: seq<seq<string>> := [];
    ghost var current := [words[0]];
    FirstWordOpensLine(FitsLine(width), words);
    for i := 1 to |words|
      invariant Filling(width, words, i, done, current)
      invariant line == LineText(current) && b == Written(done)
    {
      var word := words[i];
      Fill(width, words, i, done, current);
      LineGrows(current, word, width);
      if Bytes(line) + 1 + Bytes(word) > width {
        PageGrows(done, current);
        b := b + line;
        b := b + "\n";
        line := word;
        done, current := done + [current], [word];
        continue;
      }
      line := line + " " + word;
      current := current + [word];
    }
    LastLine(width, words, done, current);
    r := b + line;
  }

  /** done and the open line are what the greedy cut makes of the words before i. */
  ghost predicate Filling(width: int, words: seq<string>, i: int, done: seq<seq<string>>, current: seq<string>) {
    && 0 <= i <= |words|
    && current != []
    && done + Cut(FitsLine(width), current, words[i..]) == Cut(FitsLine(width), [], words)
  }

  lemma Fill(width: int, words: seq<string>, i: int, done: seq<seq<string>>, current: seq<string>)
    requires Filling(width, words, i, done, current) && i < |words|
    ensures FitsLine(width)(current + [words[i]]) ==> Filling(width, words, i + 1, done, current + [words[i]])
    ensures !FitsLine(width)(current + [words[i]]) ==> Filling(width, words, i + 1, done + [current], [words[i]])
  {
  }

  lemma LastLine(width: int, words: seq<string>, done: seq<seq<string>>, current: seq<string>)
    requires Filling(width, words, |words|, done, current)
    ensures Written(done) + LineText(current) == Page(Cut(FitsLine(width), [], words))
  {
  }

  /** What is in the builder once done is out: each line followed by its newline. */
  function Written(done: seq<seq<string>>): string {
    if done == [] then "" else Page(done) + "\n"
  }

  lemma FirstWordOpensLine(fits: seq<string> -> bool, words: seq<string>)
    requires words != []
    ensures Cut(fits, [], words) == Cut(fits, [words[0]], words[1..])
  {
    assert [] + [words[0]] == [words[0]];
  }

  lemma PageGrows(done: seq<seq<string>>, line: seq<string>)
    ensures Page(done + [line]) == Written(done) + LineText(line)
    ensures Written(done + [line]) == Written(done) + LineText(line) + "\n"
  {
  }

  lemma {:induction false} BytesAppend(a: string, b: string)
    ensures Bytes(a + b) == Bytes(a) + Bytes(b)
  {
    if b == [] {
      assert a + b == a;
    } else {
      assert (a + b)[..|a + b| - 1] == a + b[..|b| - 1];
      BytesAppend(a, b[..|b| - 1]);
    }
  }

  lemma {:induction false} LineLength(line: seq<string>)
    ensures Bytes(LineText(line)) == LineBytes(line)
  {
    if |line| > 1 {
      var n := |line| - 1;
      LineLength(line[..n]);
      assert " "[..0] == "" && Bytes(" ") == 1;
      BytesAppend(LineText(line[..n]), " ");
      BytesAppend(LineText(line[..n]) + " ", line[n]);
    }
  }

  lemma LineGrows(line: seq<string>, word: string, width: int)
    requires line != []
    ensures LineText(line + [word]) == LineText(line) + " " + word
    ensures FitsLine(width)(line + [word]) <==> Bytes(LineText(line)) + 1 + Bytes(word) <= width
  {
    LineLength(line);
    assert (line + [word])[..|line|] == line;
  }

  // --- what wrapping promises ---

  lemma {:induction false} PrefixIsShorter(line: seq<string>, n: nat)
    requires n <= |line|
    ensures LineBytes(line[..n]) <= LineBytes(line)
  {
    if n == |line| {
      assert line[..n] == line;
    } else {
      assert line[..|line| - 1][..n] == line[..n];
      PrefixIsShorter(line[..|line| - 1], n);
    }
  }

  lemma {:induction false} TailIsShorter(line: seq<string>)
    requires line != []
    ensures LineBytes(line[1..]) <= LineBytes(line)
  {
    if |line| > 2 {
      var n := |line| - 1;
      assert line[1..][..n - 1] == line[..n][1..];
      TailIsShorter(line[..n]);
    }
  }

  lemma {:induction false} SuffixIsShorter(line: seq<string>, n: nat)
    requires n <= |line|
    ensures LineBytes(line[n..]) <= LineBytes(line)
  {
    if n == 0 {
      assert line[n..] == line;
    } else {
      TailIsShorter(line);
      assert line[1..][n - 1..] == line[n..];
      SuffixIsShorter(line[1..], n - 1);
    }
  }

  lemma WidthIsHereditary(width: int)
    ensures Hereditary(FitsLine(width))
  {
    forall s: seq<string>, i, j | 0 <= i < j <= |s| && FitsLine(width)(s)
      ensures FitsLine(width)(s[i..j])
    {
      PrefixIsShorter(s, j);
      assert s[..j][i..] == s[i..j];
      SuffixIsShorter(s[..j], i);
    }
  }

  /** A way of breaking the words into lines that only a single word ever overruns. */
  ghost predicate IsLayout(words: seq<string>, width: int, lines: seq<seq<string>>) {
    && Concat(lines) == words
    && forall i | 0 <= i < |lines| :: |lines[i]| == 1 || (|lines[i]| > 1 && Bytes(LineText(lines[i])) <= width)
  }

  /**
   The lines hold the words in order, a line runs past the width only when it is a single
   word, and no other way of breaking the words uses fewer lines.
  */
  lemma {:induction false} LinesAreFewest(words: seq<string>, width: int)
    ensures var lines := Cut(FitsLine(width), [], words);
      && Concat(lines) == words
      && (forall line | line in lines :: line != [] && (Bytes(LineText(line)) > width ==> |line| == 1))
      && forall other :: IsLayout(words, width, other) ==> |lines| <= |other|
  {
    WidthIsHereditary(width);
    CutIsOptimal(FitsLine(width), words);
    forall other | IsLayout(words, width, other) ensures |Cut(FitsLine(width), [], words)| <= |other| {
      forall i | 0 <= i < |other| ensures other[i] != [] && FitsLine(width)(other[i]) {
        LineLength(other[i]);
      }
      assert Partition(FitsLine(width), words, other);
    }
    forall line | line in Cut(FitsLine(width), [], words)
      ensures line != [] && (Bytes(LineText(line)) > width ==> |line| == 1)
    {
      var i :| 0 <= i < |Cut(FitsLine(width), [], words)| && Cut(FitsLine(width), [], words)[i] == line;
      LineLength(line);
    }
  }

  // --- the words survive, whatever the width ---

  lemma {:induction false} FieldsAreWords(word: string, s: string)
    requires forall i | 0 <= i < |word| :: !IsSpace(word[i])
    ensures AreWords(Words(word, s))
    decreases |s|
  {
    if s != [] {
      if IsSpace(s[0]) {
        FieldsAreWords([], s[1..]);
      } else {
        FieldsAreWords(word + [s[0]], s[1..]);
      }
    }
  }

  lemma {:induction false} ReadThroughWord(word: string, w: string, s: string)
    requires forall i | 0 <= i < |w| :: !IsSpace(w[i])
    ensures Words(word, w + s) == Words(word + w, s)
    decreases |w|
  {
    if w == [] {
      assert w + s == s && word + w == word;
    } else {
      assert (w + s)[1..] == w[1..] + s && (w + s)[0] == w[0];
      ReadThroughWord(word + [w[0]], w[1..], s);
      assert word + [w[0]] + w[1..] == word + w;
    }
  }

  lemma {:induction false} ReadLine(line: seq<string>, s: string)
    requires AreWords(line) && (s == [] || IsSpace(s[0]))
    ensures Fields(LineText(line) + s) == line + Fields(s)
    decreases |line|
  {
    if line == [] {
      assert LineText(line) + s == s;
    } else {
      var n := |line| - 1;
      ReadWord(line[n], s);
      if n > 0 {
        var rest := line[n] + s;
        ReadSpace(' ', rest);
        ReadLine(line[..n], [' '] + rest);
        assert LineText(line) + s == LineText(line[..n]) + ([' '] + rest);
        assert line == line[..n] + [line[n]];
      }
    }
  }

  lemma ReadSpace(c: char, s: string)
    requires IsSpace(c)
    ensures Fields([c] + s) == Fields(s)
  {
  }

  lemma ReadWord(w: string, s: string)
    requires IsWord(w) && (s == [] || IsSpace(s[0]))
    ensures Fields(w + s) == [w] + Fields(s)
  {
    ReadThroughWord([], w, s);
    assert [] + w == w;
  }

  lemma {:induction false} ReadPage(lines: seq<seq<string>>, s: string)
    requires forall i | 0 <= i < |lines| :: AreWords(lines[i])
    requires s == [] || IsSpace(s[0])
    ensures Fields(Page(lines) + s) == Concat(lines) + Fields(s)
    decreases |lines|
  {
    if lines == [] {
      assert Page(lines) + s == s;
    } else {
      var n := |lines| - 1;
      ReadLine(lines[n], s);
      ConcatSnoc(lines);
      if n > 0 {
        var last := LineText(lines[n]) + s;
        ReadSpace('\n', last);
        ReadPage(lines[..n], ['\n'] + last);
        assert Page(lines) + s == Page(lines[..n]) + (['\n'] + last);
        assert Concat(lines) + Fields(s) == Concat(lines[..n]) + (lines[n] + Fields(s));
      } else {
        assert Concat(lines[..n]) + lines[n] == lines[n];
      }
    }
  }

  lemma {:induction false} PartsAreWords(lines: seq<seq<string>>)
    requires AreWords(Concat(lines))
    ensures forall i | 0 <= i < |lines| :: AreWords(lines[i])
  {
    if lines != [] {
      var all := Concat(lines);
      forall i | 0 <= i < |lines[0]| ensures IsWord(lines[0][i]) {
        assert all[i] == lines[0][i];
      }
      forall i | 0 <= i < |Concat(lines[1..])| ensures IsWord(Concat(lines[1..])[i]) {
        assert all[|lines[0]| + i] == Concat(lines[1..])[i];
      }
      PartsAreWords(lines[1..]);
    }
  }

  /** Reading the wrapped text back gives the words of the text, at every width. */
  lemma WrapKeepsWords(s: string, width: int)
    ensures Fields(Page(Cut(FitsLine(width), [], Fields(s)))) == Fields(s)
  {
    var lines := Cut(FitsLine(width), [], Fields(s));
    LinesAreFewest(Fields(s), width);
    FieldsAreWords([], s);
    PartsAreWords(lines);
    ReadPage(lines, []);
    assert Page(lines) + [] == Page(lines);
  }

  // --- words, told from the text ---

  function NonSpace(s: string): string {
    if s == [] then [] else (if IsSpace(s[0]) then [] else [s[0]]) + NonSpace(s[1..])
  }

  lemma {:induction false} WordsKeepText(word: string, s: string)
    ensures Concat(Words(word, s)) == word + NonSpace(s)
    decreases |s|
  {
    if s == [] {
      if word != [] {
        assert Closed(word)[1..] == [];
        assert word + [] == word;
      }
    } else if IsSpace(s[0]) {
      WordsKeepText([], s[1..]);
      var rest := Words([], s[1..]);
      assert Closed(word) + rest == if word == [] then rest else [word] + rest;
      assert word != [] ==> ([word] + rest)[1..] == rest;
      assert [] + NonSpace(s[1..]) == NonSpace(s[1..]);
    } else {
      WordsKeepText(word + [s[0]], s[1..]);
    }
  }

  /** The words of a text hold all of it but the white space, none is empty, and none has white space in it. */
  lemma FieldsHoldText(s: string)
    ensures Concat(Fields(s)) == NonSpace(s) && AreWords(Fields(s))
  {
    WordsKeepText([], s);
    FieldsAreWords([], s);
    assert [] + NonSpace(s) == NonSpace(s);
  }

  /** And words set apart by single spaces are the words they were. */
  lemma WordsReadBack(words: seq<string>)
    requires AreWords(words)
    ensures Fields(LineText(words)) == words
  {
    ReadLine(words, []);
    assert LineText(words) + [] == LineText(words);
  }

  /** Unicode's white space, one by one. */
  lemma SpacesAre(c: char)
    ensures IsSpace(c) <==> c as int in {
      0x09, 0x0A, 0x0B, 0x0C, 0x0D, 0x20, 0x85, 0xA0, 0x1680,
      0x2000, 0x2001, 0x2002, 0x2003, 0x2004, 0x2005, 0x2006, 0x2007, 0x2008, 0x2009, 0x200A,
      0x2028, 0x2029, 0x202F, 0x205F, 0x3000}
  {
  }

  // --- lines, told from the wrapped text ---

  /** The text between newlines, with line the one being read. */
  function Lines(line: string, s: string): seq<string>
    decreases |s|
  {
    if s == [] then [line]
    else if s[0] == '\n' then [line] + Lines([], s[1..])
    else Lines(line + [s[0]], s[1..])
  }

  lemma {:induction false} ReadThroughLine(line: string, w: string, s: string)
    requires forall i | 0 <= i < |w| :: w[i] != '\n'
    ensures Lines(line, w + s) == Lines(line + w, s)
    decreases |w|
  {
    if w == [] {
      assert w + s == s && line + w == line;
    } else {
      assert (w + s)[1..] == w[1..] + s && (w + s)[0] == w[0];
      ReadThroughLine(line + [w[0]], w[1..], s);
      assert line + [w[0]] + w[1..] == line + w;
    }
  }

  lemma {:induction false} LineHasNoBreak(line: seq<string>)
    requires AreWords(line)
    ensures forall i | 0 <= i < |LineText(line)| :: LineText(line)[i] != '\n'
  {
    if |line| == 1 {
      assert IsWord(line[0]);
    } else if |line| > 1 {
      LineHasNoBreak(line[..|line| - 1]);
      assert IsWord(line[|line| - 1]);
    }
  }

  function Texts(lines: seq<seq<string>>): (texts: seq<string>)
    ensures |texts| == |lines| && forall i | 0 <= i < |lines| :: texts[i] == LineText(lines[i])
  {
    seq(|lines|, i requires 0 <= i < |lines| => LineText(lines[i]))
  }

  lemma {:induction false} PageReads(lines: seq<seq<string>>, s: string)
    requires lines != [] && (forall i | 0 <= i < |lines| :: AreWords(lines[i]))
    requires s == [] || s[0] == '\n'
    ensures Lines([], Page(lines) + s) == Texts(lines) + After(s)
    decreases |lines|
  {
    var n := |lines| - 1;
    var text := LineText(lines[n]);
    LastLineReads(lines[n], s);
    if n > 0 {
      PageReads(lines[..n], ['\n'] + (text + s));
      PageLast(lines, s);
      TextsLast(lines, After(s));
      assert After(['\n'] + (text + s)) == [text] + After(s);
    } else {
      assert Texts(lines) == [text];
    }
  }

  lemma PageLast(lines: seq<seq<string>>, s: string)
    requires |lines| > 1
    ensures Page(lines) + s == Page(lines[..|lines| - 1]) + (['\n'] + (LineText(lines[|lines| - 1]) + s))
  {
  }

  lemma TextsLast(lines: seq<seq<string>>, rest: seq<string>)
    requires lines != []
    ensures Texts(lines) + rest == Texts(lines[..|lines| - 1]) + ([LineText(lines[|lines| - 1])] + rest)
  {
  }

  /** The lines after a newline, if there is one. */
  function After(s: string): seq<string> {
    if s == [] then [] else Lines([], s[1..])
  }

  lemma LastLineReads(line: seq<string>, s: string)
    requires AreWords(line) && (s == [] || s[0] == '\n')
    ensures Lines([], LineText(line) + s) == [LineText(line)] + After(s)
  {
    LineHasNoBreak(line);
    ReadThroughLine([], LineText(line), s);
    assert [] + LineText(line) == LineText(line);
  }

  /**
   Wrapped text, split at its newlines: every line is words with single spaces between them,
   no longer than the width unless it is one word; and no layout has fewer lines.
  */
  lemma WrappedLines(s: string, width: int)
    requires Fields(s) != []
    ensures var lines := Cut(FitsLine(width), [], Fields(s));
      var shown := Lines([], Page(lines));
      && |shown| == |lines|
      && (forall i | 0 <= i < |shown| ::
            shown[i] == LineText(lines[i]) && (Bytes(shown[i]) <= width || IsWord(shown[i])))
      && forall other :: IsLayout(Fields(s), width, other) ==> |shown| <= |other|
  {
    var lines := Cut(FitsLine(width), [], Fields(s));
    LinesAreFewest(Fields(s), width);
    FieldsAreWords([], s);
    PartsAreWords(lines);
    assert lines != [];
    PageReads(lines, []);
    assert Page(lines) + [] == Page(lines) && Texts(lines) + [] == Texts(lines);
    forall i | 0 <= i < |lines| ensures Bytes(LineText(lines[i])) <= width || IsWord(LineText(lines[i])) {
      assert lines[i] in lines && AreWords(lines[i]);
      if |lines[i]| == 1 {
        assert IsWord(lines[i][0]);
      }
    }
  }

  // --- widths, told from the encoding ---

  /** The bytes of a character in UTF-8 (section 3 of RFC 3629). */
  function Encoded(c: char): seq<int> {
    var n := c as int;
    if n <= 0x7F then [n]
    else if n <= 0x7FF then [0xC0 + n / 0x40, 0x80 + n % 0x40]
    else if n <= 0xFFFF then [0xE0 + n / 0x1000, 0x80 + n / 0x40 % 0x40, 0x80 + n % 0x40]
    else [0xF0 + n / 0x4_0000, 0x80 + n / 0x1000 % 0x40, 0x80 + n / 0x40 % 0x40, 0x80 + n % 0x40]
  }

  /** What such bytes stand for. */
  function Decoded(b: seq<int>): int
    requires 1 <= |b| <= 4
  {
    if |b| == 1 then b[0]
    else if |b| == 2 then (b[0] - 0xC0) * 0x40 + (b[1] - 0x80)
    else if |b| == 3 then (b[0] - 0xE0) * 0x1000 + (b[1] - 0x80) * 0x40 + (b[2] - 0x80)
    else (b[0] - 0xF0) * 0x4_0000 + (b[1] - 0x80) * 0x1000 + (b[2] - 0x80) * 0x40 + (b[3] - 0x80)
  }

  lemma SixBits(n: nat)
    ensures n / 0x40 * 0x40 + n % 0x40 == n
    ensures n / 0x40 / 0x40 == n / 0x1000 && n / 0x1000 / 0x40 == n / 0x4_0000
  {
  }

  /** A character is as wide as its encoding is long, and the encoding can be read back. */
  lemma RuneIsAsWideAsEncoded(c: char)
    ensures RuneBytes(c) == |Encoded(c)|
    ensures Decoded(Encoded(c)) == c as int
  {
    var n := c as int;
    SixBits(n);
    SixBits(n / 0x40);
    SixBits(n / 0x1000);
  }
}
