/** Lines, marker lines and substrings of a Caddyfile. A line ends with a newline; a CR before it is stripped. */
module CaddyText {
  type Text = seq<char>

  /** `str.isspace` */
  predicate IsSpace(c: char) {
    || '\t' <= c <= '\r' || '\U{1c}' <= c <= ' ' || c == '\U{85}' || c == '\U{a0}' || c == '\U{1680}'
    || '\U{2000}' <= c <= '\U{200a}' || c == '\U{2028}' || c == '\U{2029}' || c == '\U{202f}' || c == '\U{205f}' ||
       c == '\U{3000}'
  }

  predicate IsBreak(c: char) {
    c == '\r' || c == '\n'
  }

  function RStripBreaks(s: Text): Text {
    if s != [] && IsBreak(s[|s| - 1]) then RStripBreaks(s[..|s| - 1]) else s
  }

  function LStripBreaks(s: Text): Text {
    if s != [] && IsBreak(s[0]) then LStripBreaks(s[1..]) else s
  }

  function RStrip(s: Text): Text {
    if s != [] && IsSpace(s[|s| - 1]) then RStrip(s[..|s| - 1]) else s
  }

  function LStrip(s: Text): Text {
    if s != [] && IsSpace(s[0]) then LStrip(s[1..]) else s
  }

  // ---- Marker lines ----

  const BEGIN: Text := "# BEGIN "
  const END: Text := "# END "
  const OWNER: Text := "cc-remote managed "
  const SITE: Text := "site"
  const SERVER_LIMITS: Text := "server limits"

  datatype Kind = SiteBegin | SiteEnd | LimitsBegin | LimitsEnd {
    function Marker(): Text {
      match this
      case SiteBegin => BEGIN + OWNER + SITE
      case SiteEnd => END + OWNER + SITE
      case LimitsBegin => BEGIN + OWNER + SERVER_LIMITS
      case LimitsEnd => END + OWNER + SERVER_LIMITS
    }

    predicate OfSite() { SiteBegin? || SiteEnd? }
  }

  /** A test on whole lines. */
  type LineTest = Text -> bool

  /** Site markers stand alone on their line; limits markers may be indented. */
  predicate IsMark(kind: Kind, line: Text) {
    if kind.OfSite() then RStripBreaks(line) == kind.Marker()
    else LStrip(RStrip(RStripBreaks(line))) == kind.Marker()
  }

  function Mark(kind: Kind): LineTest {
    line => IsMark(kind, line)
  }

  /** `splitlines(keepends=True)` */
  datatype Lines = End | Line(text: Text, rest: Lines)

  function Split(s: Text): Lines {
    if s == [] then End
    else
      var more := Split(s[1..]);
      if s[0] == '\n' || more.End? then Line([s[0]], more) else Line([s[0]] + more.text, more.rest)
  }

  function Length(lines: Lines): nat {
    match lines
    case End => 0
    case Line(text, rest) => |text| + Length(rest)
  }

  function Append(a: Lines, b: Lines): Lines {
    match a
    case End => b
    case Line(text, rest) => Line(text, Append(rest, b))
  }

  /** The marker lines of one kind: none, one and where it starts and ends, or several. */
  datatype Marks = NoMark | One(start: nat, end: nat) | Several {
    function Join(more: Marks): Marks {
      if NoMark? then more else if more.NoMark? then this else Several
    }
  }

  /** Goes through the lines, the first of which starts at `offset` of the file. */
  function Find(test: LineTest, lines: Lines, offset: nat): Marks {
    match lines
    case End => NoMark
    case Line(text, rest) => (if test(text) then One(offset, offset + |text|)
                              else NoMark).Join(Find(test, rest, offset + |text|))
  }

  function MarksIn(test: LineTest, s: Text, offset: nat): Marks {
    Find(test, Split(s), offset)
  }

  predicate WholeLines(s: Text) {
    s == [] || s[|s| - 1] == '\n'
  }

  // ---- What is in a marker line ----

  lemma {:induction false} RStripBreaksKeeps(s: Text, c: char)
    ensures RStripBreaks(s) <= s
    ensures c in s && !IsBreak(c) ==> c in RStripBreaks(s)
  {
    if s != [] && IsBreak(s[|s| - 1]) {
      RStripBreaksKeeps(s[..|s| - 1], c);
      assert s == s[..|s| - 1] + [s[|s| - 1]];
    }
  }

  lemma {:induction false} RStripKeeps(s: Text, c: char)
    ensures c in RStrip(s) ==> c in s
    ensures c in s && !IsSpace(c) ==> c in RStrip(s)
  {
    if s != [] && IsSpace(s[|s| - 1]) {
      RStripKeeps(s[..|s| - 1], c);
      assert s == s[..|s| - 1] + [s[|s| - 1]];
    }
  }

  lemma {:induction false} LStripKeeps(s: Text, c: char)
    ensures c in LStrip(s) ==> c in s
    ensures c in s && !IsSpace(c) ==> c in LStrip(s)
  {
    if s != [] && IsSpace(s[0]) {
      LStripKeeps(s[1..], c);
      assert s == [s[0]] + s[1..];
    }
  }

  /** Neither brace, quote nor backslash. */
  predicate Tame(c: char) {
    c != '{' && c != '}' && c != '"' && c != '`' && c != '\\'
  }

  predicate AllTame(s: Text) {
    forall i :: 0 <= i < |s| ==> Tame(s[i])
  }

  lemma {:induction false} MarkersAreTame(kind: Kind)
    ensures AllTame(kind.Marker()) && '#' in kind.Marker()
  {
    assert AllTame(BEGIN) && AllTame(END) && AllTame(OWNER) && AllTame(SITE) && AllTame(SERVER_LIMITS);
    assert kind.Marker()[0] == '#';
  }

  /** Apart from white space, a marker line has exactly the characters of its marker. */
  lemma {:induction false} MarkChars(kind: Kind, line: Text, c: char)
    requires IsMark(kind, line) && !IsSpace(c)
    ensures c in line <==> c in kind.Marker()
  {
    var a := RStripBreaks(line);
    RStripBreaksKeeps(line, c);
    RStripKeeps(a, c);
    LStripKeeps(RStrip(a), c);
  }

  /** What the proofs use of a marker line. */
  predicate Commented(line: Text) {
    '#' in line && AllTame(line)
  }

  ghost predicate MarksComments(test: LineTest) {
    forall line :: test(line) ==> Commented(line)
  }

  lemma {:induction false} MarkIsComment(kind: Kind)
    ensures MarksComments(Mark(kind))
  {
    MarkersAreTame(kind);
    forall line | Mark(kind)(line) ensures Commented(line) {
      MarkChars(kind, line, '#');
      forall i | 0 <= i < |line| ensures Tame(line[i]) {
        if !IsSpace(line[i]) { MarkChars(kind, line, line[i]); }
      }
    }
  }

  // ---- Marker lines of a concatenation ----

  lemma {:induction false} SplitLength(s: Text)
    ensures Length(Split(s)) == |s|
  {
    if s != [] { SplitLength(s[1..]); }
  }

  lemma {:induction false} SplitConcat(a: Text, b: Text)
    requires WholeLines(a)
    ensures Split(a + b) == Append(Split(a), Split(b))
  {
    if a == [] {
      assert a + b == b;
    } else {
      assert (a + b)[1..] == a[1..] + b;
      SplitConcat(a[1..], b);
    }
  }

  lemma {:induction false} FindAppend(test: LineTest, a: Lines, b: Lines, offset: nat, there: nat)
    requires there == offset + Length(a)
    ensures Find(test, Append(a, b), offset) == Find(test, a, offset).Join(Find(test, b, there))
  {
    if a.Line? { FindAppend(test, a.rest, b, offset + |a.text|, there); }
  }

  /** `there` is where the second part stands. */
  lemma MarksConcat(test: LineTest, a: Text, b: Text, offset: nat, there: nat)
    requires WholeLines(a) && there == offset + |a|
    ensures MarksIn(test, a + b, offset) == MarksIn(test, a, offset).Join(MarksIn(test, b, there))
  {
    SplitConcat(a, b);
    SplitLength(a);
    FindAppend(test, Split(a), Split(b), offset, there);
  }

  /** Whether there is a marker line does not depend on where the text stands. */
  lemma {:induction false} FindMoves(test: LineTest, lines: Lines, a: nat, b: nat)
    ensures Find(test, lines, a).NoMark? <==> Find(test, lines, b).NoMark?
  {
    if lines.Line? { FindMoves(test, lines.rest, a + |lines.text|, b + |lines.text|); }
  }

  predicate Unmarked(test: LineTest, s: Text) {
    MarksIn(test, s, 0).NoMark?
  }

  lemma UnmarkedAnywhere(test: LineTest, s: Text, offset: nat)
    ensures Unmarked(test, s) <==> MarksIn(test, s, offset).NoMark?
  {
    FindMoves(test, Split(s), 0, offset);
  }

  lemma UnmarkedConcat(test: LineTest, a: Text, b: Text)
    requires WholeLines(a)
    ensures Unmarked(test, a + b) <==> Unmarked(test, a) && Unmarked(test, b)
  {
    MarksConcat(test, a, b, 0, |a|);
    UnmarkedAnywhere(test, b, |a|);
  }

  /** The middle part holds the only marker line. */
  lemma OnlyMarkInMiddle(test: LineTest, a: Text, m: Text, b: Text)
    requires WholeLines(a) && WholeLines(m) && Unmarked(test, a) && Unmarked(test, b)
    ensures MarksIn(test, a + m + b, 0) == MarksIn(test, m, |a|)
  {
    assert WholeLines(a + m);
    MarksConcat(test, a + m, b, 0, |a + m|);
    MarksConcat(test, a, m, 0, |a|);
    UnmarkedAnywhere(test, b, |a + m|);
  }

  lemma {:induction false} NotCommented(line: Text, c: char)
    ensures '#' !in line ==> !Commented(line)
    ensures c in line && !Tame(c) ==> !Commented(line)
  {
    if c in line && !Tame(c) {
      var k :| 0 <= k < |line| && line[k] == c;
      assert !Tame(line[k]);
    }
  }

  predicate AnyLineHas(lines: Lines, c: char) {
    lines.Line? && (c in lines.text || AnyLineHas(lines.rest, c))
  }

  lemma {:induction false} LinesAreParts(s: Text, c: char)
    requires c !in s
    ensures !AnyLineHas(Split(s), c)
  {
    if s != [] { LinesAreParts(s[1..], c); }
  }

  lemma {:induction false} NoHashNoMark(test: LineTest, lines: Lines, offset: nat)
    requires !AnyLineHas(lines, '#') && MarksComments(test)
    ensures Find(test, lines, offset).NoMark?
  {
    if lines.Line? {
      NotCommented(lines.text, '#');
      NoHashNoMark(test, lines.rest, offset + |lines.text|);
    }
  }

  lemma NoHashUnmarked(test: LineTest, s: Text)
    requires '#' !in s && MarksComments(test)
    ensures Unmarked(test, s)
  {
    LinesAreParts(s, '#');
    NoHashNoMark(test, Split(s), 0);
  }

  /** A single line. */
  lemma {:induction false} OneLine(line: Text)
    requires line != [] && forall i :: 0 <= i < |line| - 1 ==> line[i] != '\n'
    ensures Split(line) == Line(line, End)
  {
    if |line| > 1 {
      OneLine(line[1..]);
      assert [line[0]] + line[1..] == line;
    } else {
      assert line == [line[0]] && line[1..] == [];
    }
  }

  // ---- Cutting a line at a brace ----

  /** Where the last, unfinished line of `s` starts. */
  function LastLine(s: Text): (k: nat)
    ensures k <= |s| && WholeLines(s[..k]) && forall i :: k <= i < |s| ==> s[i] != '\n'
  {
    if s == [] || s[|s| - 1] == '\n' then |s| else LastLine(s[..|s| - 1])
  }

  lemma {:induction false} SplitAcross(head: Text, b: Text)
    requires b != [] && '\n' !in head
    ensures Split(b).Line? && Split(head + b) == Line(head + Split(b).text, Split(b).rest)
  {
    if head == [] {
      assert head + b == b;
      assert [] + Split(b).text == Split(b).text;
    } else {
      assert (head + b)[1..] == head[1..] + b;
      SplitAcross(head[1..], b);
      assert [head[0]] + (head[1..] + Split(b).text) == head + Split(b).text;
    }
  }

  lemma BraceLine(test: LineTest, head: Text, b: Text, offset: nat, there: nat)
    requires b != [] && b[0] == '}' && MarksComments(test) && '\n' !in head && there == offset + |head|
    ensures MarksIn(test, head + b, offset) == MarksIn(test, b, there)
  {
    SplitAcross(head, b);
    var line := Split(b).text;
    assert line[0] == '}' && (head + line)[|head|] == '}';
    NotCommented(head + line, '}');
    NotCommented(line, '}');
    assert offset + |head + line| == there + |line|;
  }

  /** A line with a brace in it is no marker line, so cutting it there changes no marker. */
  lemma CutAtBrace(test: LineTest, lines: Text, head: Text, b: Text)
    requires WholeLines(lines) && '\n' !in head && b != [] && b[0] == '}' && MarksComments(test)
    ensures MarksIn(test, lines + head + b, 0) == MarksIn(test, lines, 0).Join(MarksIn(test, b, |lines + head|))
  {
    assert lines + (head + b) == lines + head + b;
    MarksConcat(test, lines, head + b, 0, |lines|);
    BraceLine(test, head, b, |lines|, |lines + head|);
  }

  /** Finishing the last line when that does not make it a marker line. */
  lemma FinishLine(test: LineTest, lines: Text, head: Text)
    requires WholeLines(lines) && '\n' !in head && !test(head + "\n")
    ensures MarksIn(test, lines + head + "\n", 0) == MarksIn(test, lines, 0)
  {
    var line := head + "\n";
    assert lines + line == lines + head + "\n";
    MarksConcat(test, lines, line, 0, |lines|);
    OneLine(line);
    assert Find(test, Line(line, End), |lines|) == NoMark;
  }

  // ---- Substrings ----

  predicate Contains(s: Text, d: Text) {
    exists i :: 0 <= i <= |s| && d <= s[i..]
  }

  lemma {:induction false} ContainsParts(a: Text, b: Text, d: Text)
    requires WholeLines(a) && '\n' !in d && Contains(a + b, d) && d != []
    ensures Contains(a, d) || Contains(b, d)
  {
    var i :| 0 <= i <= |a + b| && d <= (a + b)[i..];
    if i >= |a| {
      assert (a + b)[i..] == b[i - |a|..];
    } else {
      assert forall j :: 0 <= j < |d| ==> d[j] == (a + b)[i + j];
      Straddles(a, b, d, i);
    }
  }

  lemma {:induction false} Straddles(a: Text, b: Text, d: Text, i: nat)
    requires WholeLines(a) && '\n' !in d && i < |a| && d <= (a + b)[i..]
    ensures d <= a[i..]
  {
    if |a| - 1 - i < |d| {
      CharOf(a + b, d, i, |a| - 1);
    }
  }

  lemma {:induction false} CharOf(s: Text, d: Text, i: nat, k: nat)
    requires i <= k < |s| && d <= s[i..] && k - i < |d|
    ensures s[k] in d
  {
    assert d[k - i] == s[k];
  }

  lemma {:induction false} ContainsMore(a: Text, b: Text, c: Text, d: Text)
    requires Contains(b, d)
    ensures Contains(a + b + c, d)
  {
    var i :| 0 <= i <= |b| && d <= b[i..];
    assert d <= (a + b + c)[|a| + i..];
  }
}
