/** Sections and chunks in the coordinates of the normalised text (tools/retrieval-calibration.py). */
module TextCoordinates {
  import opened Outcomes
  import opened Sequences
  import opened Whitespace

  /** A named half-open range of the normalised text: a section with its heading, or a chunk with its own text. */
  datatype Span = Span(name: string, start: nat, end: nat)

  // ----- Lines -----

  function Unix(text: string): string {
    if |text| < 2 then text
    else if text[..2] == "\r\n" then "\n" + Unix(text[2..])
    else [text[0]] + Unix(text[1..])
  }

  /** `text.split("\n")` */
  function Lines(text: string): (lines: seq<string>)
    ensures lines != []
  {
    if text == "" then [""]
    else
      var rest := Lines(text[1..]);
      if text[0] == '\n' then [""] + rest else [[text[0]] + rest[0]] + rest[1..]
  }

  function Words(lines: seq<string>): seq<string> {
    if lines == [] then [] else Tokens(lines[0]) + Words(lines[1..])
  }

  // ----- Code fences and headings -----

  function RunOf(c: char, t: string): (n: nat)
    ensures n <= |t|
  {
    if t == "" || t[0] != c then 0 else RunOf(c, t[1..]) + 1
  }

  /** The character of a fence marker: up to three blanks and three or more of it. */
  function Marker(line: string): Option<char> {
    var n := RunOf(' ', line);
    if n > 3 then None
    else if ['`', '`', '`'] <= line[n..] then Some('`')
    else if ['~', '~', '~'] <= line[n..] then Some('~')
    else None
  }

  function Toggle(fence: Option<char>, line: string): Option<char> {
    match Marker(line)
    case None => fence
    case Some(c) => if fence.None? then Some(c) else if fence.value == c then None else fence
  }

  /** The fence open after the first n lines. */
  function FenceAfter(lines: seq<string>, n: nat): Option<char>
    requires n <= |lines|
  {
    if n == 0 then None else Toggle(FenceAfter(lines, n - 1), lines[n - 1])
  }

  predicate IsBlank(c: char) {
    c == ' ' || c == '\t'
  }

  function Blanks(t: string): (n: nat)
    ensures n <= |t|
  {
    if t == "" || !IsBlank(t[0]) then 0 else Blanks(t[1..]) + 1
  }

  /** A closing sequence: blanks, number signs, blanks and nothing else. */
  predicate Closing(t: string) {
    var hashes := t[Blanks(t)..];
    var last := hashes[RunOf('#', hashes)..];
    Blanks(last) == |last|
  }

  /** The shortest title of at least n characters that only a closing sequence follows. */
  function Title(t: string, n: nat): (title: string)
    requires n <= |t|
    decreases |t| - n
  {
    if n == |t| || Closing(t[n..]) then t[..n] else Title(t, n + 1)
  }

  /** The title of an ATX heading line: up to three blanks, one to six number signs, blanks, and a title. */
  function Heading(line: string): Option<string> {
    var n := RunOf(' ', line);
    var level := RunOf('#', line[n..]);
    var b := Blanks(line[n + level..]);
    if n > 3 || level == 0 || level > 6 || b == 0 then None
    else if n + level + b == |line| then if b > 1 then Some("") else None
    else Some(Strip(Title(line[n + level + b..], 1)))
  }

  /** A heading outside code. */
  predicate IsHeading(lines: seq<string>, i: nat)
    requires i < |lines|
  {
    FenceAfter(lines, i).None? && Marker(lines[i]).None? && Tokens(lines[i]) != [] && Heading(lines[i]).Some?
  }

  /** The numbers of the heading lines among the first n. */
  function Headings(lines: seq<string>, n: nat): (hs: seq<nat>)
    requires n <= |lines|
    ensures forall k | 0 <= k < |hs| :: hs[k] < n
  {
    if n == 0 then [] else Headings(lines, n - 1) + if IsHeading(lines, n - 1) then [n - 1] else []
  }

  /** They are all of them, in order. */
  lemma {:induction false} HeadingsExactly(lines: seq<string>, n: nat)
    requires n <= |lines|
    ensures forall i | 0 <= i < n :: i in Headings(lines, n) <==> IsHeading(lines, i)
    ensures forall j, k | 0 <= j < k < |Headings(lines, n)| :: Headings(lines, n)[j] < Headings(lines, n)[k]
  {
    hide IsHeading;
    if n > 0 {
      HeadingsExactly(lines, n - 1);
    }
  }

  // ----- What the patterns recognise -----

  lemma {:induction false} RunOfExactly(c: char, t: string, n: nat)
    ensures RunOf(c, t) == n
            <==> && n <= |t| && (forall i | 0 <= i < n :: t[i] == c) && (n < |t| ==> t[n] != c)
  {
    if t != "" && t[0] == c && n > 0 {
      RunOfExactly(c, t[1..], n - 1);
      assert forall i | 0 < i < |t| :: t[i] == t[1..][i - 1];
    }
  }

  lemma {:induction false} BlanksExactly(t: string, n: nat)
    ensures Blanks(t) == n
            <==> && n <= |t| && (forall i | 0 <= i < n :: IsBlank(t[i])) && (n < |t| ==> !IsBlank(t[n]))
  {
    if t != "" && IsBlank(t[0]) && n > 0 {
      BlanksExactly(t[1..], n - 1);
      assert forall i | 0 < i < |t| :: t[i] == t[1..][i - 1];
    }
  }

  /** Three of a fence character after n blanks. */
  predicate MarkerAt(line: string, n: nat, c: char) {
    && n + 3 <= |line| && (forall i | 0 <= i < n :: line[i] == ' ')
    && line[n] == c && line[n + 1] == c && line[n + 2] == c
  }

  /** A marker is at most three blanks and then three of the same fence character. */
  lemma MarkerExactly(line: string, c: char)
    ensures Marker(line) == Some(c) <==> c in {'`', '~'} && exists n :: n <= 3 && MarkerAt(line, n, c)
  {
    hide RunOf, MarkerAt;
    var n := RunOf(' ', line);
    RunOfExactly(' ', line, n);
    if m :| m <= 3 && MarkerAt(line, m, c) && c in {'`', '~'} {
      MarkerRun(line, m, c);
      ThreeOf(line, n, '`');
      ThreeOf(line, n, '~');
    }
    if Marker(line) == Some(c) {
      ThreeOf(line, n, c);
    }
  }

  lemma MarkerRun(line: string, m: nat, c: char)
    requires MarkerAt(line, m, c) && c != ' '
    ensures RunOf(' ', line) == m
  {
    hide RunOf;
    RunOfExactly(' ', line, m);
  }

  lemma ThreeOf(line: string, n: nat, c: char)
    requires n <= |line| && forall i | 0 <= i < n :: line[i] == ' '
    ensures [c, c, c] <= line[n..] <==> MarkerAt(line, n, c)
  {
    assert forall i | n <= i < |line| :: line[i] == line[n..][i - n];
  }

  /** A fence is open exactly from a marker outside fences to the next marker of the same character. */
  lemma {:induction false} FenceExactly(lines: seq<string>, n: nat, c: char)
    requires n <= |lines|
    ensures FenceAfter(lines, n) == Some(c)
            <==> exists k | 0 <= k < n ::
                   && Marker(lines[k]) == Some(c) && FenceAfter(lines, k).None?
                   && forall j | k < j < n :: Marker(lines[j]) != Some(c)
  {
    hide Marker;
    if n > 0 {
      FenceExactly(lines, n - 1, c);
    }
  }

  /** What a heading line opens with: n blanks, `level` number signs and b blanks or tabs. */
  predicate Opens(line: string, n: nat, level: nat, b: nat) {
    && n + level + b <= |line| && n <= 3 && 1 <= level <= 6 && 1 <= b
    && (forall i | 0 <= i < n :: line[i] == ' ')
    && (forall i | n <= i < n + level :: line[i] == '#')
    && (forall i | n + level <= i < n + level + b :: IsBlank(line[i]))
  }

  /** A match of the heading pattern: an opening, a group of g characters, and a closing sequence to the line's end. */
  predicate HeadingMatch(line: string, n: nat, level: nat, b: nat, g: nat) {
    && 1 <= g && n + level + b + g <= |line| && Opens(line, n, level, b)
    && Closing(line[n + level + b + g..])
  }

  lemma {:induction false} TitleIsShortest(t: string, n: nat)
    requires n <= |t|
    ensures n <= |Title(t, n)| <= |t| && Title(t, n) == t[..|Title(t, n)|] && Closing(t[|Title(t, n)|..])
    ensures forall k | n <= k < |Title(t, n)| :: !Closing(t[k..])
    decreases |t| - n
  {
    if n == |t| {
      NothingCloses(t[n..]);
    } else if !Closing(t[n..]) {
      hide Closing;
      TitleIsShortest(t, n + 1);
    }
  }

  lemma NothingCloses(t: string)
    requires t == ""
    ensures Closing(t)
  {}

  lemma OpeningParts(line: string, n: nat, level: nat)
    requires n == RunOf(' ', line) && level == RunOf('#', line[n..])
    ensures n + level <= |line| && forall i | 0 <= i < n :: line[i] == ' '
    ensures forall i | n <= i < n + level :: line[i] == '#'
  {
    hide RunOf;
    RunOfExactly(' ', line, n);
    RunOfExactly('#', line[n..], level);
    assert forall i | n <= i < |line| :: line[i] == line[n..][i - n];
  }

  lemma BlankParts(line: string, m: nat, b: nat)
    requires m <= |line| && b == Blanks(line[m..])
    ensures m + b <= |line| && forall i | m <= i < m + b :: IsBlank(line[i])
  {
    hide Blanks, IsBlank;
    BlanksExactly(line[m..], b);
    assert forall i | m <= i < |line| :: line[i] == line[m..][i - m];
  }

  lemma OpeningIsUnique(line: string, n: nat, level: nat, b: nat)
    requires Opens(line, n, level, b)
    ensures RunOf(' ', line) == n && RunOf('#', line[n..]) == level && b <= Blanks(line[n + level..])
  {
    hide RunOf, Blanks;
    RunOfExactly(' ', line, n);
    RunOfExactly('#', line[n..], level);
    var all := Blanks(line[n + level..]);
    BlanksExactly(line[n + level..], all);
    assert forall i | n + level <= i < |line| :: line[i] == line[n + level..][i - (n + level)];
  }

  /** The recogniser finds a heading exactly where the pattern matches. */
  lemma HeadingExactly(line: string)
    ensures Heading(line).Some? <==> exists n, level, b, g :: HeadingMatch(line, n, level, b, g)
  {
    hide Closing, Title, Strip, Blanks, RunOf;
    if n, level, b, g :| HeadingMatch(line, n, level, b, g) {
      OpeningIsUnique(line, n, level, b);
    }
    if Heading(line).Some? {
      HeadingIsMatch(line);
    }
  }

  lemma MatchHasWords(line: string, n: nat, level: nat, b: nat, g: nat)
    requires HeadingMatch(line, n, level, b, g)
    ensures Marker(line).None? && Tokens(line) != []
  {
    hide Closing, IsBlank, RunOf;
    OpeningIsUnique(line, n, level, b);
    assert line[n..][0] == line[n] == '#';
    HasWord(line, n);
  }

  lemma {:induction false} HasWord(t: string, n: nat)
    requires n < |t| && !IsSpace(t[n])
    ensures Tokens(t) != []
  {
    if n > 0 && IsSpace(t[0]) {
      HasWord(t[1..], n - 1);
    }
  }

  /** A line is a heading exactly where no fence is open and the pattern matches. */
  lemma HeadingLinesExactly(lines: seq<string>, i: nat)
    requires i < |lines|
    ensures IsHeading(lines, i)
            <==> && (forall c :: FenceAfter(lines, i) != Some(c))
                 && exists n, level, b, g :: HeadingMatch(lines[i], n, level, b, g)
  {
    hide HeadingMatch, Marker, Heading;
    HeadingExactly(lines[i]);
    assert FenceAfter(lines, i).Some? ==> FenceAfter(lines, i) == Some(FenceAfter(lines, i).value);
    if n, level, b, g :| HeadingMatch(lines[i], n, level, b, g) {
      MatchHasWords(lines[i], n, level, b, g);
    }
  }

  lemma HeadingIsMatch(line: string)
    requires Heading(line).Some?
    ensures exists n, level, b, g :: HeadingMatch(line, n, level, b, g)
  {
    hide Closing, Title, Strip, Blanks, RunOf, IsBlank;
    var n := RunOf(' ', line);
    var level := RunOf('#', line[n..]);
    var b := Blanks(line[n + level..]);
    OpeningParts(line, n, level);
    BlankParts(line, n + level, b);
    if n + level + b == |line| {
      assert Opens(line, n, level, b - 1);
      NothingCloses(line[n + level + (b - 1) + 1..]);
      assert HeadingMatch(line, n, level, b - 1, 1);
    } else {
      assert Opens(line, n, level, b);
      TitleCloses(line, n + level + b);
      assert HeadingMatch(line, n, level, b, |Title(line[n + level + b..], 1)|);
    }
  }

  lemma TitleCloses(line: string, m: nat)
    requires m < |line|
    ensures var g := |Title(line[m..], 1)|; 1 <= g && m + g <= |line| && Closing(line[m + g..])
  {
    hide Closing;
    TitleIsShortest(line[m..], 1);
    var g := |Title(line[m..], 1)|;
    assert line[m..][g..] == line[m + g..];
  }

  /** A name ends at the first place where only a closing sequence follows, and loses the whitespace at its ends. */
  predicate IsName(content: string, g: nat, name: string) {
    && 1 <= g <= |content| && name == Strip(content[..g])
    && Closing(content[g..]) && forall k | 1 <= k < g :: !Closing(content[k..])
  }

  ghost predicate HasName(content: string, name: string) {
    exists g :: IsName(content, g, name)
  }

  /** The name of a heading is empty where nothing follows its opening, and otherwise the shortest one. */
  lemma HeadingName(line: string, n: nat, level: nat, b: nat)
    requires Opens(line, n, level, b) && (n + level + b < |line| ==> !IsBlank(line[n + level + b]))
    requires Heading(line).Some?
    ensures n + level + b == |line| ==> Heading(line).value == ""
    ensures n + level + b < |line| ==> HasName(line[n + level + b..], Heading(line).value)
  {
    hide Closing, Strip, RunOf, Blanks;
    OpeningIsUnique(line, n, level, b);
    BlanksExactly(line[n + level..], b);
    var content := line[n + level + b..];
    assert forall i | n + level <= i < |line| :: line[i] == line[n + level..][i - (n + level)];
    if content != "" {
      TitleIsShortest(content, 1);
      assert IsName(content, |Title(content, 1)|, Heading(line).value);
    }
  }

  /** Where the words of line i start in the normalised text, or where it ends when there is no such line. */
  function Offset(lines: seq<string>, i: nat): nat
    requires i <= |lines|
  {
    var before := Join(Words(lines[..i]));
    if i == |lines| || before == "" then |before| else |before| + 1
  }

  // ----- The normalised text is the lines' words, joined -----

  lemma {:induction false} WordsConcat(a: seq<string>, b: seq<string>)
    ensures Words(a + b) == Words(a) + Words(b)
  {
    if a == [] {
      assert a + b == b;
    } else {
      assert (a + b)[1..] == a[1..] + b;
      WordsConcat(a[1..], b);
    }
  }

  lemma {:induction false} WordsAreWords(lines: seq<string>)
    ensures forall w | w in Words(lines) :: IsWord(w)
  {
    if lines != [] {
      TokensAreWords(lines[0]);
      WordsAreWords(lines[1..]);
    }
  }

  lemma JoinOfWords(lines: seq<string>)
    ensures Tokens(Join(Words(lines))) == Words(lines)
    ensures Join(Words(lines)) == "" <==> Words(lines) == []
  {
    WordsAreWords(lines);
    TokensOfJoin(Words(lines));
    JoinedSpaces(Words(lines));
  }

  /** A text is its first line, or that line, a line break and the text of the other lines. */
  lemma {:induction false} SplitFirst(text: string)
    ensures var lines := Lines(text);
            if |lines| == 1 then text == lines[0]
            else exists rest :: text == lines[0] + ['\n'] + rest && Lines(rest) == lines[1..] && |rest| < |text|
  {
    if text != "" {
      var lines := Lines(text);
      if text[0] == '\n' {
        assert text == "" + ['\n'] + text[1..];
        assert lines[1..] == Lines(text[1..]);
      } else {
        SplitFirst(text[1..]);
        var tail := Lines(text[1..]);
        assert lines[1..] == tail[1..];
        if |lines| > 1 {
          var rest :| text[1..] == tail[0] + ['\n'] + rest && Lines(rest) == tail[1..] && |rest| < |text[1..]|;
          assert text == [text[0]] + text[1..];
          assert text == lines[0] + ['\n'] + rest;
        }
      }
    }
  }

  lemma {:induction false} TokensOfLines(text: string)
    ensures Tokens(text) == Words(Lines(text))
    decreases |text|
  {
    var lines := Lines(text);
    SplitFirst(text);
    if |lines| > 1 {
      var rest :| text == lines[0] + ['\n'] + rest && Lines(rest) == lines[1..] && |rest| < |text|;
      TokensConcat(lines[0], '\n', rest);
      TokensOfLines(rest);
    } else {
      assert lines[1..] == [];
      assert Words([]) == [];
    }
  }

  lemma {:induction false} UnixWord(w: string, rest: string)
    requires forall c | c in w :: !IsSpace(c)
    ensures Unix(w + rest) == w + Unix(rest)
  {
    if w == "" {
      assert w + rest == rest;
    } else {
      assert w[0] in w && w[0] != '\r';
      hide IsSpace, Unix;
      UnixStep(w[0], w[1..] + rest);
      assert w + rest == [w[0]] + (w[1..] + rest);
      UnixWord(w[1..], rest);
      assert w + Unix(rest) == [w[0]] + (w[1..] + Unix(rest));
    }
  }

  lemma UnixStep(c: char, rest: string)
    requires c != '\r'
    ensures Unix([c] + rest) == [c] + Unix(rest)
  {
    assert ([c] + rest)[1..] == rest;
  }

  /** Line ends are whitespace in either form. */
  lemma {:induction false} TokensOfUnix(text: string)
    ensures Tokens(Unix(text)) == Tokens(text)
    decreases |text|
  {
    if |text| < 2 {
    } else if text[..2] == "\r\n" {
      assert text[0] == '\r' && text[1] == '\n' && text[1..][1..] == text[2..];
      TokensOfUnix(text[2..]);
    } else if IsSpace(text[0]) {
      TokensOfUnix(text[1..]);
    } else {
      var n := WordLength(text);
      var w, rest := text[..n], text[n..];
      assert n > 0 && text == w + rest;
      UnixWord(w, rest);
      UnixStart(rest);
      WordAlone(w, Unix(rest));
      FirstWord(w, rest);
      FirstWord(w, Unix(rest));
      TokensOfUnix(rest);
    }
  }

  lemma UnixStart(rest: string)
    requires rest == "" || IsSpace(rest[0])
    ensures Unix(rest) == "" || IsSpace(Unix(rest)[0])
  {
  }

  /** Counting line by line measures the same text that is normalised at once. */
  lemma NormalizedLines(text: string)
    ensures Normalize(text) == Join(Words(Lines(Unix(text))))
  {
    TokensOfUnix(text);
    TokensOfLines(Unix(text));
  }

  ghost predicate AreWords(words: seq<string>) {
    forall w | w in words :: IsWord(w)
  }

  /** The middle part of a joined list, up to where the next part starts. */
  lemma MiddleOfJoin(a: seq<string>, b: seq<string>, c: seq<string>)
    requires AreWords(a) && AreWords(b) && AreWords(c) && b != []
    ensures var t := Join(a + b + c);
            var o := |Join(a)| + |Separator(a, b)|;
            var e := |Join(a + b)| + |Separator(b, c)|;
            && o < e <= |t| && Tokens(t[o..e]) == b && (c == [] ==> e == |t|)
  {
    hide IsWord, Tokens, Join;
    JoinConcat(a, b);
    JoinConcat(a + b, c);
    JoinedSpaces(b);
    TokensOfJoin(b);
    var front, part := Join(a) + Separator(a, b), Join(b) + Separator(b, c);
    var last := if c == [] then "" else Join(c);
    if c == [] {
      assert a + b + c == a + b;
      assert part == Join(b);
    } else {
      TokensConcat(Join(b), ' ', "");
      assert Join(b) + [' '] + "" == part;
      NothingToSplit(b);
    }
    assert Separator(a + b, c) == Separator(b, c);
    Middle(front, part, last);
    assert Join(a + b + c) == front + part + last by {
      Reassociate(front, Join(b), Separator(b, c));
    }
  }

  lemma NothingToSplit(b: seq<string>)
    ensures b + Tokens("") == b
  {
  }

  lemma Middle(a: string, b: string, c: string)
    ensures (a + b + c)[|a|..|a + b|] == b
  {
  }

  lemma OffsetOfWords(lines: seq<string>, i: nat)
    requires i <= |lines| && (i < |lines| ==> Tokens(lines[i]) != [])
    ensures Offset(lines, i) == |Join(Words(lines[..i]))| + |Separator(Words(lines[..i]), Words(lines[i..]))|
  {
    JoinOfWords(lines[..i]);
    if i < |lines| {
      FirstHasWords(lines, i);
    } else {
      assert lines[i..] == [];
    }
  }

  /**
    A section reaches from the first word of its heading line to the next such line, or to the end: what the range
    holds, split into words, is exactly the words of those lines.
   */
  lemma RangeHoldsLines(text: string, i: nat, j: nat)
    requires var lines := Lines(Unix(text));
             && i < j <= |lines| && Tokens(lines[i]) != []
             && (j < |lines| ==> Tokens(lines[j]) != [])
    ensures var lines := Lines(Unix(text));
            && Offset(lines, i) < Offset(lines, j) <= |Normalize(text)|
            && Tokens(Normalize(text)[Offset(lines, i)..Offset(lines, j)]) == Words(lines[i..j])
  {
    var lines := Lines(Unix(text));
    hide Tokens, Join, Offset, Unix, Lines, Words, Separator;
    NormalizedLines(text);
    ThreeParts(lines, i, j);
    RangeOffsets(lines, i, j);
    WordsAreWords(lines[..i]);
    WordsAreWords(lines[i..j]);
    WordsAreWords(lines[j..]);
    MiddleOfJoin(Words(lines[..i]), Words(lines[i..j]), Words(lines[j..]));
  }

  lemma RangeOffsets(lines: seq<string>, i: nat, j: nat)
    requires i < j <= |lines| && Tokens(lines[i]) != [] && (j < |lines| ==> Tokens(lines[j]) != [])
    ensures var a, b, c := Words(lines[..i]), Words(lines[i..j]), Words(lines[j..]);
            && b != [] && Offset(lines, i) == |Join(a)| + |Separator(a, b)|
            && Offset(lines, j) == |Join(a + b)| + |Separator(b, c)|
  {
    OffsetOfWords(lines, i);
    OffsetOfWords(lines, j);
    hide Tokens, Join, Offset;
    ThreeParts(lines, i, j);
    FirstHasWords(lines[..j], i);
    assert lines[..j][i..] == lines[i..j];
    hide Words;
  }

  lemma SplitAt<T>(s: seq<T>, i: nat)
    requires i <= |s|
    ensures s == s[..i] + s[i..]
  {
  }

  lemma WordsSplit(lines: seq<string>, i: nat)
    requires i <= |lines|
    ensures Words(lines) == Words(lines[..i]) + Words(lines[i..])
  {
    hide Words;
    SplitAt(lines, i);
    WordsConcat(lines[..i], lines[i..]);
  }

  lemma SlicesOfSlices<T>(s: seq<T>, i: nat, j: nat)
    requires i <= j <= |s|
    ensures s[..j][..i] == s[..i] && s[..j][i..] == s[i..j]
    ensures s[i..][..j - i] == s[i..j] && s[i..][j - i..] == s[j..]
  {
  }

  lemma PrefixParts(lines: seq<string>, i: nat, j: nat)
    requires i <= j <= |lines|
    ensures Words(lines[..j]) == Words(lines[..i]) + Words(lines[i..j])
  {
    hide Words;
    SlicesOfSlices(lines, i, j);
    WordsSplit(lines[..j], i);
  }

  lemma SuffixParts(lines: seq<string>, i: nat, j: nat)
    requires i <= j <= |lines|
    ensures Words(lines[i..]) == Words(lines[i..j]) + Words(lines[j..])
  {
    hide Words;
    SlicesOfSlices(lines, i, j);
    WordsSplit(lines[i..], j - i);
  }

  lemma ThreeParts(lines: seq<string>, i: nat, j: nat)
    requires i <= j <= |lines|
    ensures Words(lines) == Words(lines[..i]) + Words(lines[i..j]) + Words(lines[j..])
    ensures Words(lines[..j]) == Words(lines[..i]) + Words(lines[i..j])
    ensures Words(lines[i..]) == Words(lines[i..j]) + Words(lines[j..])
  {
    hide Words;
    PrefixParts(lines, i, j);
    SuffixParts(lines, i, j);
    WordsSplit(lines, j);
  }

  lemma FirstHasWords(lines: seq<string>, i: nat)
    requires i < |lines| && Tokens(lines[i]) != []
    ensures Words(lines[i..]) != []
  {
    assert lines[i..][0] == lines[i];
  }

  // ----- Sections -----

  /** The sections tile the text from the first heading to the end. */
  ghost predicate Tiles(sections: seq<Span>, length: nat) {
    && (forall k | 0 <= k < |sections| :: sections[k].start < sections[k].end)
    && (forall k | 0 <= k < |sections| - 1 :: sections[k].end == sections[k + 1].start)
    && (sections != [] ==> sections[|sections| - 1].end == length)
  }

  /** The line on which section k of these headings ends. */
  function NextLine(lines: seq<string>, hs: seq<nat>, k: nat): nat {
    if k + 1 < |hs| then hs[k + 1] else |lines|
  }

  /** Section k is named by the k-th heading, and its range of the normalised text holds that heading's lines. */
  ghost predicate IsSection(text: string, section: Span, k: nat) {
    var lines := Lines(Unix(text));
    var hs := Headings(lines, |lines|);
    && k < |hs| && Heading(lines[hs[k]]) == Some(section.name)
    && section.start < section.end <= |Normalize(text)| && hs[k] < NextLine(lines, hs, k) <= |lines|
    && Tokens(Normalize(text)[section.start..section.end]) == Words(lines[hs[k]..NextLine(lines, hs, k)])
  }

  /** The headings among the first n lines, each with its title and offset. */
  function Marks(lines: seq<string>, n: nat): seq<(string, nat)>
    requires n <= |lines|
  {
    if n == 0 then []
    else
      Marks(lines, n - 1) +
      if IsHeading(lines, n - 1) then [(Heading(lines[n - 1]).value, Offset(lines, n - 1))] else []
  }

  lemma {:induction false} MarksOfHeadings(lines: seq<string>, n: nat)
    requires n <= |lines|
    ensures |Marks(lines, n)| == |Headings(lines, n)|
    ensures forall k | 0 <= k < |Marks(lines, n)| ::
              IsHeading(lines, Headings(lines, n)[k]) &&
              Marks(lines, n)[k] == (Heading(lines[Headings(lines, n)[k]]).value, Offset(lines, Headings(lines, n)[k]))
  {
    hide Heading, Offset;
    if n > 0 {
      MarksOfHeadings(lines, n - 1);
    }
  }

  lemma NextOffset(lines: seq<string>, i: nat)
    requires i < |lines|
    ensures lines[..i + 1] == lines[..i] + [lines[i]]
    ensures |Join(Words(lines[..i + 1]))| ==
            if Tokens(lines[i]) == [] then |Join(Words(lines[..i]))|
            else (if Join(Words(lines[..i])) == "" then 0 else |Join(Words(lines[..i]))| + 1) + |Join(Tokens(lines[i]))|
  {
    var front, words := Words(lines[..i]), Tokens(lines[i]);
    assert lines[..i + 1] == lines[..i] + [lines[i]];
    WordsConcat(lines[..i], [lines[i]]);
    assert Words([lines[i]]) == words by {
      assert [lines[i]][1..] == [];
      assert words + [] == words;
    }
    JoinConcat(front, words);
    JoinOfWords(lines[..i]);
    if words == [] {
      assert front + words == front;
    }
  }

  method SectionSpans(text: string) returns (sections: seq<Span>)
    ensures var lines := Lines(Unix(text)); |sections| == |Headings(lines, |lines|)|
    ensures forall k | 0 <= k < |sections| :: IsSection(text, sections[k], k)
    ensures Tiles(sections, |Normalize(text)|)
  {
    var lines := Lines(Unix(text));
    var marks: seq<(string, nat)> := [];
    var length := 0;
    var fence: Option<char> := None;
    hide Tokens, Words, Join, Heading, Marker, Unix, Lines;
    NoWords(lines);
    for i := 0 to |lines|
      invariant fence == FenceAfter(lines, i)
      invariant length == |Join(Words(lines[..i]))|
      invariant marks == Marks(lines, i)
    {
      var line := lines[i];
      var marker := Marker(line);
      var inCode := false;
      if marker.Some? {
        if fence.None? {
          fence := marker;
        } else if marker == fence {
          fence := None;
        }
        inCode := true;
      } else if fence.Some? {
        inCode := true;
      }
      var tokens := Tokens(line);
      NextOffset(lines, i);
      if tokens == [] {
        continue;
      }
      var offset := length + if length > 0 then 1 else 0;
      var heading := if inCode then None else Heading(line);
      if heading.Some? {
        marks := marks + [(heading.value, offset)];
      }
      length := offset + |Join(tokens)|;
    }
    sections := Ranges(marks, length);
    assert lines[..|lines|] == lines;
    MarkedSections(text);
  }

  /** Each mark's range goes on to the next mark, the last one's to the end. */
  function Ranges(marks: seq<(string, nat)>, length: nat): seq<Span> {
    seq(|marks|, k requires 0 <= k < |marks| =>
      Span(marks[k].0, marks[k].1, if k + 1 < |marks| then marks[k + 1].1 else length))
  }

  lemma RangesTile(marks: seq<(string, nat)>, length: nat)
    requires forall k | 0 <= k < |marks| :: Ranges(marks, length)[k].start < Ranges(marks, length)[k].end
    ensures Tiles(Ranges(marks, length), length)
  {
  }

  lemma MarkedSection(text: string, k: nat)
    requires var lines := Lines(Unix(text)); k < |Marks(lines, |lines|)|
    ensures var lines := Lines(Unix(text));
            IsSection(text, Ranges(Marks(lines, |lines|), |Join(Words(lines))|)[k], k)
  {
    hide Heading, Marker, Tokens, Unix, Lines, Join, Words, FenceAfter;
    var lines := Lines(Unix(text));
    var hs := Headings(lines, |lines|);
    MarksOfHeadings(lines, |lines|);
    HeadingsExactly(lines, |lines|);
    hide Headings, Marks;
    EndOffset(lines);
    hide Offset;
    var next := NextLine(lines, hs, k);
    assert IsHeading(lines, hs[k]) && (next < |lines| ==> IsHeading(lines, next));
    RangeHoldsLines(text, hs[k], next);
  }

  lemma EndOffset(lines: seq<string>)
    ensures Offset(lines, |lines|) == |Join(Words(lines))|
  {
    assert lines[..|lines|] == lines;
  }

  lemma MarkedSections(text: string)
    ensures var lines := Lines(Unix(text));
            var sections := Ranges(Marks(lines, |lines|), |Join(Words(lines))|);
            && |sections| == |Headings(lines, |lines|)| && Tiles(sections, |Normalize(text)|)
            && forall k | 0 <= k < |sections| :: IsSection(text, sections[k], k)
  {
    hide Unix, Lines, Join, Words, IsSection, Headings, Marks, Tiles;
    var lines := Lines(Unix(text));
    MarksOfHeadings(lines, |lines|);
    NormalizedLines(text);
    var marks, length := Marks(lines, |lines|), |Join(Words(lines))|;
    forall k | 0 <= k < |marks|
      ensures IsSection(text, Ranges(marks, length)[k], k)
      ensures Ranges(marks, length)[k].start < Ranges(marks, length)[k].end
    {
      MarkedSection(text, k);
      PositiveRange(text, Ranges(marks, length)[k], k);
    }
    RangesTile(marks, length);
  }

  lemma PositiveRange(text: string, section: Span, k: nat)
    requires IsSection(text, section, k)
    ensures section.start < section.end
  {
  }

  lemma NoWords(lines: seq<string>)
    ensures Join(Words(lines[..0])) == ""
  {
    assert lines[..0] == [];
  }

  // ----- Chunks -----

  function Min(a: int, b: int): int {
    if a < b then a else b
  }

  function Max(a: int, b: int): int {
    if a > b then a else b
  }

  /** `TextChunker.split` from a given start of the normalised text. */
  function Split(t: string, start: nat, size: nat, overlap: nat): seq<string>
    requires overlap < size
    decreases |t| - start
  {
    if start >= |t| then []
    else
      var end := Min(|t|, start + size);
      var chunk := Strip(t[start..end]);
      (if chunk == "" then [] else [chunk]) +
      if end >= |t| then [] else Split(t, start + size - overlap, size, overlap)
  }

  function Names(spans: seq<Span>): seq<string> {
    seq(|spans|, i requires 0 <= i < |spans| => spans[i].name)
  }

  /** Some span holds the whole slice from p to q. */
  predicate Together(spans: seq<Span>, p: int, q: int) {
    exists i | 0 <= i < |spans| :: spans[i].start <= p && q <= spans[i].end
  }

  /** A slice that starts and ends with a character that is not whitespace. */
  predicate IsSolid(t: string, p: int, q: int) {
    0 <= p < q <= |t| && !IsSpace(t[p]) && !IsSpace(t[q - 1])
  }

  /** A chunk is a slice of the text, at most `size` long, that neither starts nor ends with whitespace. */
  predicate IsChunk(t: string, span: Span, size: nat) {
    && span.start < span.end <= |t| && span.end - span.start <= size
    && span.name == t[span.start..span.end]
    && !IsSpace(t[span.start]) && !IsSpace(t[span.end - 1])
  }

  /** The windows start at the multiples of what size exceeds overlap by. */
  function WindowStart(n: nat, size: nat, overlap: nat): nat
    requires overlap < size
  {
    n * (size - overlap)
  }

  /** Window n is cut when it starts in the text and no earlier window reached the end. */
  predicate IsCut(t: string, n: nat, size: nat, overlap: nat)
    requires overlap < size
  {
    WindowStart(n, size, overlap) < |t| && (n > 0 ==> WindowStart(n - 1, size, overlap) + size < |t|)
  }

  /** The span is what window n holds without the whitespace at its ends. */
  predicate FromWindow(t: string, span: Span, n: nat, size: nat, overlap: nat)
    requires overlap < size
  {
    var start := WindowStart(n, size, overlap);
    var end := Min(|t|, start + size);
    && start <= span.start < span.end <= end && span.name == Strip(t[start..end])
    && (forall p | start <= p < end && !IsSpace(t[p]) :: span.start <= p < span.end)
  }

  /** The span comes from one of the first windows, which is cut. */
  ghost predicate HasWindow(t: string, span: Span, count: nat, size: nat, overlap: nat)
    requires overlap < size
  {
    exists n: nat | n < count :: IsCut(t, n, size, overlap) && FromWindow(t, span, n, size, overlap)
  }

  /** Window n is cut and has its span, unless it is blank. */
  ghost predicate HasSpan(t: string, spans: seq<Span>, n: nat, size: nat, overlap: nat)
    requires overlap < size
  {
    && IsCut(t, n, size, overlap)
    && (|| IsBlankWindow(t, n, size, overlap)
        || exists i | 0 <= i < |spans| :: FromWindow(t, spans[i], n, size, overlap))
  }

  predicate IsBlankWindow(t: string, n: nat, size: nat, overlap: nat)
    requires overlap < size && IsCut(t, n, size, overlap)
  {
    var start := WindowStart(n, size, overlap);
    forall p | start <= p < Min(|t|, start + size) :: IsSpace(t[p])
  }

  /** The spans are those of the first windows, and of no others. */
  ghost predicate WindowsCut(t: string, spans: seq<Span>, count: nat, size: nat, overlap: nat)
    requires overlap < size
  {
    && (forall i | 0 <= i < |spans| :: HasWindow(t, spans[i], count, size, overlap))
    && (forall n: nat | n < count :: HasSpan(t, spans, n, size, overlap))
  }

  /** The windows go on until one reaches the end of the text, and the spans are theirs. */
  ghost predicate AllWindows(t: string, spans: seq<Span>, size: nat, overlap: nat)
    requires overlap < size
  {
    exists count: nat ::
      && WindowsCut(t, spans, count, size, overlap)
      && (if t == "" then count == 0 else count > 0 && WindowStart(count - 1, size, overlap) + size >= |t|)
  }

  /** Every character that is not whitespace is in some span. */
  predicate NothingLost(t: string, spans: seq<Span>) {
    forall p | 0 <= p < |t| && !IsSpace(t[p]) :: Together(spans, p, p + 1)
  }

  /** Every solid slice no longer than the overlap is in one span. */
  ghost predicate NothingTorn(t: string, spans: seq<Span>, overlap: nat) {
    forall p, q | IsSolid(t, p, q) && q - p <= overlap :: Together(spans, p, q)
  }

  /** What has been covered: solid slices no longer than the overlap, and single characters. */
  ghost predicate CoversTo(t: string, spans: seq<Span>, covered: nat, overlap: nat) {
    forall p, q | IsSolid(t, p, q) && q <= covered && (q - p <= overlap || q - p == 1) :: Together(spans, p, q)
  }

  /**
    Every span is exactly its chunk of the text and comes from its window; no character that is not whitespace is lost,
    and no solid slice up to the overlap is torn apart; and the chunks are those of the ingestion.
   */
  method ChunkSpans(text: string, size: nat, overlap: nat) returns (spans: seq<Span>)
    requires overlap < size
    ensures var t := Normalize(text);
            && (forall i | 0 <= i < |spans| :: IsChunk(t, spans[i], size))
            && NothingLost(t, spans) && NothingTorn(t, spans, overlap) && AllWindows(t, spans, size, overlap)
    ensures Names(spans) == Split(Normalize(text), 0, size, overlap)
  {
    var t := Normalize(text);
    var step := size - overlap;
    spans := [];
    var start := 0;
    ghost var count, covered := 0, 0;
    hide Strip, IsSpace, Normalize, LeadingSpaces, IsChunk, Together, Split, Names, WindowStart, IsCut, WindowsCut,
      CoversTo;
    NothingCut(t, size, overlap);
    FirstWindow(t, size, overlap);
    while t != "" && start < |t|
      invariant start == WindowStart(count, size, overlap)
      invariant count == 0 ==> covered == 0 && start == 0
      invariant count > 0 ==> covered == start + overlap < |t|
      invariant count > 0 ==> covered == WindowStart(count - 1, size, overlap) + size
      invariant t != "" ==> start < |t| && IsCut(t, count, size, overlap)
      invariant WindowsCut(t, spans, count, size, overlap)
      invariant forall i | 0 <= i < |spans| :: IsChunk(t, spans[i], size)
      invariant CoversTo(t, spans, covered, overlap)
      invariant Names(spans) + Split(t, start, size, overlap) == Split(t, 0, size, overlap)
      decreases |t| - start
    {
      var end := Min(|t|, start + size);
      var raw := t[start..end];
      var chunk := Strip(raw);
      ghost var before := spans;
      if chunk != "" {
        var first := start + LeadingSpaces(raw);
        spans := spans + [Span(chunk, first, first + |chunk|)];
      }
      assert spans == before + Cut(t, start, end);
      WindowCovers(t, start, end, size, overlap, covered, before);
      WindowAdds(t, before, count, size, overlap);
      NextNames(t, start, size, overlap, before);
      NextWindow(t, count, size, overlap);
      count, covered := count + 1, end;
      if end >= |t| {
        break;
      }
      start := start + step;
    }
    assert t != "" ==> covered == |t|;
    AllCovered(t, spans, overlap);
    assert WindowsCut(t, spans, count, size, overlap);
  }

  lemma AllCovered(t: string, spans: seq<Span>, overlap: nat)
    requires CoversTo(t, spans, |t|, overlap)
    ensures NothingLost(t, spans) && NothingTorn(t, spans, overlap)
  {
    hide IsSpace, Together;
    forall p | 0 <= p < |t| && !IsSpace(t[p])
      ensures Together(spans, p, p + 1)
    {
      assert IsSolid(t, p, p + 1);
    }
  }

  lemma FirstWindow(t: string, size: nat, overlap: nat)
    requires overlap < size
    ensures WindowStart(0, size, overlap) == 0 && (t != "" ==> IsCut(t, 0, size, overlap))
    ensures WindowsCut(t, [], 0, size, overlap) && CoversTo(t, [], 0, overlap)
  {
  }

  lemma NextWindow(t: string, n: nat, size: nat, overlap: nat)
    requires overlap < size && WindowStart(n, size, overlap) < |t|
    ensures WindowStart(n + 1, size, overlap) == WindowStart(n, size, overlap) + (size - overlap)
    ensures WindowStart(n, size, overlap) + size < |t| ==> IsCut(t, n + 1, size, overlap)
  {
    assert (n + 1) * (size - overlap) == n * (size - overlap) + (size - overlap);
  }

  /** What window n adds. */
  function WindowCut(t: string, n: nat, size: nat, overlap: nat): seq<Span>
    requires overlap < size && IsCut(t, n, size, overlap)
  {
    var start := WindowStart(n, size, overlap);
    Cut(t, start, Min(|t|, start + size))
  }

  lemma WindowAdds(t: string, spans: seq<Span>, n: nat, size: nat, overlap: nat)
    requires overlap < size && IsCut(t, n, size, overlap) && WindowsCut(t, spans, n, size, overlap)
    ensures WindowsCut(t, spans + WindowCut(t, n, size, overlap), n + 1, size, overlap)
  {
    hide WindowCut, WindowsCut, IsCut;
    CutFromWindow(t, n, size, overlap);
    SpansOfWindows(t, spans, WindowCut(t, n, size, overlap), n, size, overlap);
  }

  lemma SpansOfWindows(t: string, spans: seq<Span>, cut: seq<Span>, n: nat, size: nat, overlap: nat)
    requires overlap < size && WindowsCut(t, spans, n, size, overlap) && HasSpan(t, cut, n, size, overlap)
    requires forall i | 0 <= i < |cut| :: HasWindow(t, cut[i], n + 1, size, overlap)
    ensures WindowsCut(t, spans + cut, n + 1, size, overlap)
  {
    hide HasWindow, HasSpan;
    var after := spans + cut;
    forall i | 0 <= i < |after|
      ensures HasWindow(t, after[i], n + 1, size, overlap)
    {
      if i < |spans| {
        assert after[i] == spans[i];
        StillHasWindow(t, spans[i], n, size, overlap);
      } else {
        assert after[i] == cut[i - |spans|];
      }
    }
    assert after[|spans|..] == cut && spans <= after;
    forall m: nat | m < n + 1
      ensures HasSpan(t, after, m, size, overlap)
    {
      if m < n {
        MoreSpans(t, spans, after, m, size, overlap);
      } else {
        MoreSpans(t, cut, after, n, size, overlap);
      }
    }
  }

  lemma StillHasWindow(t: string, span: Span, n: nat, size: nat, overlap: nat)
    requires overlap < size && HasWindow(t, span, n, size, overlap)
    ensures HasWindow(t, span, n + 1, size, overlap)
  {
    hide IsCut, FromWindow;
  }

  lemma MoreSpans(t: string, spans: seq<Span>, more: seq<Span>, m: nat, size: nat, overlap: nat)
    requires overlap < size && HasSpan(t, spans, m, size, overlap)
    requires spans <= more || (|spans| <= |more| && spans == more[|more| - |spans|..])
    ensures HasSpan(t, more, m, size, overlap)
  {
    hide FromWindow, IsCut, IsBlankWindow;
    if i :| 0 <= i < |spans| && FromWindow(t, spans[i], m, size, overlap) {
      assert more[if spans <= more then i else |more| - |spans| + i] == spans[i];
    }
  }

  lemma CutFromWindow(t: string, n: nat, size: nat, overlap: nat)
    requires overlap < size && IsCut(t, n, size, overlap)
    ensures HasSpan(t, WindowCut(t, n, size, overlap), n, size, overlap)
    ensures forall i | 0 <= i < |WindowCut(t, n, size, overlap)| ::
              HasWindow(t, WindowCut(t, n, size, overlap)[i], n + 1, size, overlap)
  {
    hide Strip, LeadingSpaces, IsSpace, WindowStart;
    var start := WindowStart(n, size, overlap);
    var end := Min(|t|, start + size);
    WindowChunk(t, start, end, size);
    var cut := Cut(t, start, end);
    if cut != [] {
      assert FromWindow(t, cut[0], n, size, overlap);
    }
    hide IsCut, FromWindow;
  }

  /** The span of the window from start to end, unless it is blank. */
  function Cut(t: string, start: nat, end: nat): seq<Span>
    requires start <= end <= |t|
  {
    var raw := t[start..end];
    var first := start + LeadingSpaces(raw);
    if Strip(raw) == "" then [] else [Span(Strip(raw), first, first + |Strip(raw)|)]
  }

  lemma NothingCut(t: string, size: nat, overlap: nat)
    requires overlap < size
    ensures Names([]) + Split(t, 0, size, overlap) == Split(t, 0, size, overlap)
    ensures forall start: nat, spans: seq<Span> | start >= |t| ::
              Names(spans) + Split(t, start, size, overlap) == Names(spans)
    ensures forall spans: seq<Span> :: Names(spans) + [] == Names(spans)
  {
    hide Strip;
    assert Names([]) == [];
  }

  lemma NamesConcat(a: seq<Span>, b: seq<Span>)
    ensures Names(a + b) == Names(a) + Names(b)
  {
  }

  /** What `split` still cuts after the window from start. */
  function Rest(t: string, start: nat, size: nat, overlap: nat): seq<string>
    requires overlap < size
  {
    if start + size >= |t| then [] else Split(t, start + size - overlap, size, overlap)
  }

  lemma SplitOnce(t: string, start: nat, size: nat, overlap: nat)
    requires overlap < size && start < |t|
    ensures Split(t, start, size, overlap)
            == Names(Cut(t, start, Min(|t|, start + size))) + Rest(t, start, size, overlap)
  {
    hide Strip, LeadingSpaces;
    var chunk := Strip(t[start..Min(|t|, start + size)]);
    assert Names(Cut(t, start, Min(|t|, start + size))) == if chunk == "" then [] else [chunk];
  }

  lemma NextNames(t: string, start: nat, size: nat, overlap: nat, spans: seq<Span>)
    requires overlap < size && start < |t|
    ensures Names(spans) + Split(t, start, size, overlap)
            == Names(spans + Cut(t, start, Min(|t|, start + size))) + Rest(t, start, size, overlap)
  {
    hide Names, Split, Rest, Cut;
    var cut := Cut(t, start, Min(|t|, start + size));
    SplitOnce(t, start, size, overlap);
    NamesConcat(spans, cut);
    Reassociate(Names(spans), Names(cut), Rest(t, start, size, overlap));
  }

  /** The chunk of one window keeps all its characters but the whitespace at its ends. */
  lemma WindowChunk(t: string, start: nat, end: nat, size: nat)
    requires start <= end <= |t| && end - start <= size
    ensures var raw := t[start..end];
            var first, last := start + LeadingSpaces(raw), start + LeadingSpaces(raw) + |Strip(raw)|;
            && last <= end && (Strip(raw) != "" ==> IsChunk(t, Span(Strip(raw), first, last), size))
            && forall p | start <= p < end && !IsSpace(t[p]) :: first <= p < last
  {
    hide IsSpace, LeadingSpaces, Strip;
    var raw := t[start..end];
    var n, m := LeadingSpaces(raw), |Strip(raw)|;
    StripKeepsWords(raw);
    Slices(t, start, end, n, m);
    assert forall p | start <= p < end :: raw[p - start] == t[p];
    assert m > 0 ==> Strip(raw)[0] == t[start + n] && Strip(raw)[m - 1] == t[start + n + m - 1];
  }

  lemma WindowCovers(t: string, start: nat, end: nat, size: nat, overlap: nat, covered: nat, spans: seq<Span>)
    requires start < end <= |t| && end - start <= size
    requires covered == start + overlap || (covered == 0 && start == 0)
    requires forall i | 0 <= i < |spans| :: IsChunk(t, spans[i], size)
    requires CoversTo(t, spans, covered, overlap)
    ensures var after := spans + Cut(t, start, end);
            (forall i | 0 <= i < |after| :: IsChunk(t, after[i], size)) && CoversTo(t, after, end, overlap)
  {
    hide IsSpace, LeadingSpaces, Strip, IsChunk, Together;
    WindowChunk(t, start, end, size);
    var after := spans + Cut(t, start, end);
    forall p, q | IsSolid(t, p, q) && q <= end && (q - p <= overlap || q - p == 1)
      ensures Together(after, p, q)
    {
      if q <= covered {
        StillTogether(spans, after, p, q);
      } else {
        TogetherInLast(after, p, q);
      }
    }
  }

  lemma TogetherInLast(spans: seq<Span>, p: int, q: int)
    requires spans != [] && spans[|spans| - 1].start <= p && q <= spans[|spans| - 1].end
    ensures Together(spans, p, q)
  {
  }

  lemma Slices(t: string, start: nat, end: nat, n: nat, m: nat)
    requires start <= end <= |t| && start + n + m <= end
    ensures t[start..end][n..n + m] == t[start + n..start + n + m]
  {
    var a, b := t[start..end][n..n + m], t[start + n..start + n + m];
    assert forall k | 0 <= k < m :: a[k] == b[k];
  }

  lemma StillTogether(spans: seq<Span>, more: seq<Span>, p: int, q: int)
    requires spans <= more && Together(spans, p, q)
    ensures Together(more, p, q)
  {
    var i :| 0 <= i < |spans| && spans[i].start <= p && q <= spans[i].end;
    assert more[i] == spans[i];
  }

  // ----- The section of a chunk -----

  function Overlap(section: Span, start: int, end: int): int {
    Min(end, section.end) - Max(start, section.start)
  }

  predicate Inside(p: int, start: int, end: int) {
    start <= p < end
  }

  function Range(start: int, end: int): set<int> {
    set p: int | start <= p < end && Inside(p, start, end)
  }

  lemma {:induction false} RangeSize(start: int, end: int)
    ensures |Range(start, end)| == if start < end then end - start else 0
    decreases end - start
  {
    if start < end {
      RangeSize(start, end - 1);
      assert Range(start, end) == Range(start, end - 1) + {end - 1};
    } else {
      assert Range(start, end) == {};
    }
  }

  /** The overlap, when positive, is the number of characters both have. */
  lemma OverlapCounts(section: Span, start: int, end: int)
    ensures |Range(start, end) * Range(section.start, section.end)|
            == if Overlap(section, start, end) > 0 then Overlap(section, start, end) else 0
  {
    RangeSize(Max(start, section.start), Min(end, section.end));
    assert Range(start, end) * Range(section.start, section.end)
           == Range(Max(start, section.start), Min(end, section.end));
  }

  /** Section k shares most characters with the range, and is the first that does. */
  predicate Best(sections: seq<Span>, k: nat, start: int, end: int)
    requires k < |sections|
  {
    var most := Overlap(sections[k], start, end);
    forall j | 0 <= j < |sections| ::
      if j < k then Overlap(sections[j], start, end) < most else Overlap(sections[j], start, end) <= most
  }

  /** The first of the sections that share most characters with the range, unless none shares any. */
  method PrimarySection(sections: seq<Span>, start: int, end: int) returns (best: Option<string>)
    ensures best.None? <==> forall k | 0 <= k < |sections| :: Overlap(sections[k], start, end) <= 0
    ensures best.Some? ==>
              exists k | 0 <= k < |sections| :: sections[k].name == best.value && Best(sections, k, start, end)
  {
    hide Overlap;
    best := None;
    var bestOverlap := 0;
    ghost var at := 0;
    for i := 0 to |sections|
      invariant bestOverlap >= 0 && (best.None? <==> bestOverlap == 0)
      invariant forall j | 0 <= j < i :: Overlap(sections[j], start, end) <= bestOverlap
      invariant best.Some? ==>
                  && at < i && sections[at].name == best.value && Overlap(sections[at], start, end) == bestOverlap
                  && forall j | 0 <= j < at :: Overlap(sections[j], start, end) < bestOverlap
    {
      var overlap := Overlap(sections[i], start, end);
      if overlap > bestOverlap {
        best, bestOverlap := Some(sections[i].name), overlap;
        at := i;
      }
    }
    assert best.Some? ==> Best(sections, at, start, end);
  }

  /** A range of the text has a section exactly when it reaches past the start of the first heading. */
  lemma ChunkHasSection(sections: seq<Span>, length: nat, start: nat, end: nat)
    requires Tiles(sections, length) && sections != [] && start < end <= length
    ensures (exists k | 0 <= k < |sections| :: Overlap(sections[k], start, end) > 0) <==> end > sections[0].start
  {
    if end > sections[0].start {
      var k := LastStarting(sections, end, |sections|);
      assert k + 1 < |sections| ==> sections[k].end == sections[k + 1].start;
      assert Overlap(sections[k], start, end) > 0;
    }
    TilesInOrder(sections, length);
  }

  function LastStarting(sections: seq<Span>, end: nat, n: nat): (k: nat)
    requires 0 < n <= |sections| && sections[0].start < end
    ensures k < n && sections[k].start < end
    ensures forall j | k < j < n :: sections[j].start >= end
  {
    if n == 1 || sections[n - 1].start < end then n - 1 else LastStarting(sections, end, n - 1)
  }

  lemma TilesInOrder(sections: seq<Span>, length: nat)
    requires Tiles(sections, length)
    ensures forall k | 0 <= k < |sections| :: sections[0].start <= sections[k].start
  {
    var k := 0;
    while k < |sections|
      invariant k <= |sections| && forall j | 0 <= j < k :: sections[0].start <= sections[j].start
    {
      assert k > 0 ==> sections[k - 1].end == sections[k].start;
      k := k + 1;
    }
  }
}
