/**
 Merging the managed site and the managed server limits into a shared Caddyfile, and why merging
 again changes nothing.
 */
module CaddyMerge {
  import opened Common
  import opened CaddyText
  import opened CaddyLexer
  import opened CaddyLimits

  datatype MergeError =
    | EmptySite | SiteWithoutDomain | SiteWithMarkers
    | SitePair | SiteOrder | DomainOutside | DomainUnmarked
    | LimitsPair | LimitsOrder | LimitsOutside | UnterminatedBlock | UnmanagedServers

  /** `text` with a region replaced by as many spaces. */
  function Blank(text: Text, start: nat, end: nat): (r: Text)
    requires start <= end <= |text|
    ensures |r| == |text|
  {
    SpacesLength(end - start);
    text[..start] + Spaces(end - start) + text[end..]
  }

  lemma {:induction false} SpacesLength(n: nat)
    ensures |Spaces(n)| == n
  {
    if n > 0 { SpacesLength(n - 1); }
  }

  lemma {:induction false} SpanInside(text: Text)
    ensures GlobalSpan(text).Block? ==> GlobalSpan(text).opening < GlobalSpan(text).closing < |text|
  {
    var o := SkipBlank(text);
    if GlobalSpan(text).Block? {
      assert text[o..][0] == '{';
    }
  }

  lemma {:induction false} MarkInside(test: LineTest, text: Text)
    ensures MarksIn(test, text, 0).One? ==> MarksIn(test, text, 0).start <= MarksIn(test, text, 0).end <= |text|
  {
    SplitLength(text);
    FindInside(test, Split(text), 0);
  }

  lemma {:induction false} FindInside(test: LineTest, lines: Lines, offset: nat)
    ensures var m := Find(test, lines, offset); m.One? ==> offset <= m.start <= m.end <= offset + Length(lines)
  {
    if lines.Line? { FindInside(test, lines.rest, offset + |lines.text|); }
  }

  /** Replaces the managed limits, or adds them at the end of the global block or in a new one. */
  function RenderGlobalLimits(alnum: AlnumTest, text: Text): Result<Text, MergeError> {
    RenderWith(alnum, Mark(LimitsBegin), Mark(LimitsEnd), text, Limits())
  }

  function RenderWith(alnum: AlnumTest, begin: LineTest, end: LineTest, text: Text,
                      limits: Text): Result<Text, MergeError> {
    var begins, ends := MarksIn(begin, text, 0), MarksIn(end, text, 0);
    MarkInside(end, text);
    if begins.NoMark? && ends.NoMark? then AddLimits(alnum, text, limits)
    else if !begins.One? || !ends.One? then Err(LimitsPair)
    else if begins.start >= ends.start then Err(LimitsOrder)
    else ReplaceLimits(alnum, text, limits, begins.start, ends.start, ends.end)
  }

  function ReplaceLimits(alnum: AlnumTest, text: Text, limits: Text, start: nat, last: nat,
                         end: nat): Result<Text, MergeError>
    requires start < last <= end <= |text|
  {
    SpanInside(text);
    match GlobalSpan(text)
    case Unterminated => Err(UnterminatedBlock)
    case NoBlock => Err(LimitsOutside)
    case Block(opening, closing) =>
      if !(opening < start < last < closing) then Err(LimitsOutside)
      else if HasServers(alnum, Blank(text, start, end), opening, closing) then Err(UnmanagedServers)
      else Ok(text[..start] + limits + text[end..])
  }

  function AddLimits(alnum: AlnumTest, text: Text, limits: Text): Result<Text, MergeError> {
    SpanInside(text);
    match GlobalSpan(text)
    case NoBlock => Ok("{\n" + limits + "}\n\n" + text)
    case Unterminated => Err(UnterminatedBlock)
    case Block(opening, closing) =>
      if HasServers(alnum, text, opening, closing) then Err(UnmanagedServers)
      else Ok(text[..closing] + Separator(text, closing) + limits + text[closing..])
  }

  function Separator(text: Text, closing: nat): Text
    requires closing <= |text|
  {
    if closing > 0 && IsBreak(text[closing - 1]) then "" else "\n"
  }

  // ---- Texts that start with an open global block ----

  lemma {:induction false} SkipPrefix(a: Text, b: Text)
    ensures SkipBlank(a) < |a| || SkipBlank(a + b) < |a| ==> SkipBlank(a + b) == SkipBlank(a)
    decreases |a|, 1
  {
    if a == [] {
    } else {
      assert (a + b)[1..] == a[1..] + b;
      if IsSpace(a[0]) { SkipPrefix(a[1..], b); }
      else if a[0] == '#' { SkipCommentPrefix(a, b); }
    }
  }

  lemma {:induction false} SkipCommentPrefix(a: Text, b: Text)
    requires a != []
    ensures SkipComment(a) < |a| || SkipComment(a + b) < |a| ==> SkipComment(a + b) == SkipComment(a)
    decreases |a|, 0
  {
    assert (a + b)[1..] == a[1..] + b;
    if a[0] == '\n' { SkipPrefix(a[1..], b); }
    else if |a| > 1 { SkipCommentPrefix(a[1..], b); }
  }

  /** The global block is opened in `s` and not closed there. */
  predicate Opens(s: Text) {
    SkipBlank(s) < |s| && s[SkipBlank(s)] == '{' && FindClose(OUTSIDE, s[SkipBlank(s)..]).None?
  }

  function StateAfter(s: Text): Lex
    requires Opens(s)
  {
    LexRun(OUTSIDE, s[SkipBlank(s)..])
  }

  lemma {:induction false} SpanOf(a: Text, b: Text)
    requires Opens(a)
    ensures GlobalSpan(a + b)
         == match FindClose(StateAfter(a), b)
            case None => Unterminated
            case Some(k) => Block(SkipBlank(a), |a| + k)
  {
    var o := SkipBlank(a);
    SkipPrefix(a, b);
    assert (a + b)[o..] == a[o..] + b;
    CloseConcat(OUTSIDE, a[o..], b);
  }

  lemma {:induction false} SpanSplit(text: Text, n: nat)
    requires GlobalSpan(text).Block? && GlobalSpan(text).opening < n <= GlobalSpan(text).closing <= |text|
    ensures Opens(text[..n]) && SkipBlank(text[..n]) == GlobalSpan(text).opening
    ensures FindClose(StateAfter(text[..n]), text[n..]) == Some(GlobalSpan(text).closing - n)
  {
    var a, b := text[..n], text[n..];
    var o := GlobalSpan(text).opening;
    assert text == a + b;
    SkipPrefix(a, b);
    assert text[o..] == a[o..] + b;
    CloseConcat(OUTSIDE, a[o..], b);
  }

  lemma {:induction false} StateAtLineStart(a: Text)
    requires Opens(a) && WholeLines(a)
    ensures StateAfter(a).mode.Normal? || InString(StateAfter(a))
    ensures StateAfter(a).depth >= 1
  {
    AtLineStart(OUTSIDE, a[SkipBlank(a)..]);
    DepthOf(a);
  }

  lemma {:induction false} DepthOf(a: Text)
    requires Opens(a)
    ensures StateAfter(a).depth >= 1
  {
    var s := a[SkipBlank(a)..];
    assert LexStep(OUTSIDE, s[0]) == Lex(1, Normal);
    OpenDepth(Lex(1, Normal), s[1..]);
  }

  lemma {:induction false} OpenDepth(l: Lex, s: Text)
    requires l.depth >= 1 && FindClose(l, s).None?
    ensures LexRun(l, s).depth >= 1
    decreases s
  {
    if s != [] { OpenDepth(LexStep(l, s[0]), s[1..]); }
  }

  // ---- Rendering again ----

  /** The search for `servers` as it stands after `a` and the blanked limits. */
  function ScanAfter(alnum: AlnumTest, a: Text): Scan
    requires Opens(a)
  {
    ScanStep(alnum, ScanRun(alnum, IN_BLOCK, a[SkipBlank(a) + 1..]), ' ')
  }

  /** What the second rendering decides: does the block still close, and is there no other `servers`? */
  function Verdict(alnum: AlnumTest, a: Text, b: Text): Option<MergeError>
    requires Opens(a)
  {
    match FindClose(StateAfter(a), b)
    case None => Some(UnterminatedBlock)
    case Some(k) => if Hit(ScanRun(alnum, ScanAfter(alnum, a), b[..k])) then Some(UnmanagedServers) else None
  }

  lemma {:induction false} ScanLine(alnum: AlnumTest, a: Text)
    requires AlnumOk(alnum) && Opens(a) && WholeLines(a)
    ensures var e := ScanRun(alnum, IN_BLOCK, a[SkipBlank(a) + 1..]);
            TokenOk(e) && (e.Scan? ==> e.lex == StateAfter(a) && (e.lex.mode.Normal? || InString(e.lex)))
  {
    var o := SkipBlank(a);
    StateAtLineStart(a);
    ScanFollows(alnum, IN_BLOCK, a[o + 1..]);
    assert a[o..][1..] == a[o + 1..] && LexStep(OUTSIDE, '{') == Lex(1, Normal);
  }

  lemma {:induction false} SliceThrough(a: Text, m: Text, b: Text, from: nat, k: nat)
    requires from <= |a| && k <= |b|
    ensures (a + m + b)[from..|a| + |m| + k] == a[from..] + (m + b[..k])
  {
    var left, right := (a + m + b)[from..|a| + |m| + k], a[from..] + (m + b[..k]);
    assert |left| == |right|;
    forall i | 0 <= i < |left| ensures left[i] == right[i] {
      assert left[i] == (a + m + b)[from + i];
    }
  }

  /** Searching `a`, then any positive number of spaces, then part of `b`. */
  lemma {:induction false} BlankedSearch(alnum: AlnumTest, a: Text, n: nat, b: Text, k: nat)
    requires AlnumOk(alnum) && Opens(a) && WholeLines(a) && n > 0 && k < |b|
    ensures |a + Spaces(n) + b| == |a| + n + |b|
    ensures HasServers(alnum, a + Spaces(n) + b, SkipBlank(a), |a| + n + k) ==
            Hit(ScanRun(alnum, ScanAfter(alnum, a), b[..k]))
  {
    var o := SkipBlank(a);
    var head := a[o + 1..];
    SpacesLength(n);
    SliceThrough(a, Spaces(n), b, o + 1, k);
    ScanConcat(alnum, IN_BLOCK, head, Spaces(n) + b[..k]);
    ScanLine(alnum, a);
    var e := ScanRun(alnum, IN_BLOCK, head);
    ScanConcat(alnum, e, Spaces(n), b[..k]);
    SpacesSettle(alnum, e, n);
  }

  // ---- The marker lines of the managed limits ----

  lemma {:induction false} MarkerEnds(kind: Kind)
    ensures kind.Marker() != [] && kind.Marker()[0] == '#' && !IsSpace(kind.Marker()[|kind.Marker()| - 1])
    ensures LimitsBegin.Marker() != LimitsEnd.Marker() && SiteBegin.Marker() != SiteEnd.Marker()
  {
    assert SITE[|SITE| - 1] == 'e' && SERVER_LIMITS[|SERVER_LIMITS| - 1] == 's';
    assert LimitsBegin.Marker()[2] == 'B' && LimitsEnd.Marker()[2] == 'E';
    assert SiteBegin.Marker()[2] == 'B' && SiteEnd.Marker()[2] == 'E';
  }

  lemma {:induction false} StripIndented(m: Text)
    requires m != [] && !IsSpace(m[|m| - 1]) && !IsSpace(m[0])
    ensures RStripBreaks("\t" + m + "\n") == "\t" + m
    ensures LStrip(RStrip("\t" + m)) == m
  {
    var line := "\t" + m + "\n";
    assert line[..|line| - 1] == "\t" + m;
    assert ("\t" + m)[1..] == m;
  }

  lemma {:induction false} IndentedIsMark(kind: Kind, other: Kind)
    requires !kind.OfSite()
    ensures Mark(other)(IndentedMarker(kind)) <==> other == kind
  {
    MarkerEnds(kind);
    MarkerEnds(other);
    StripIndented(kind.Marker());
    assert ("\t" + kind.Marker())[0] == '\t';
  }

  lemma {:induction false} IndentedLine(kind: Kind)
    ensures IndentedMarker(kind) != [] && WholeLines(IndentedMarker(kind))
    ensures Split(IndentedMarker(kind)) == Line(IndentedMarker(kind), End)
  {
    MarkersHaveNoNewline(kind);
    OneLine(IndentedMarker(kind));
  }

  lemma {:induction false} DirectiveUnmarked(kind: Kind)
    ensures Unmarked(Mark(kind), ServersDirective()) && WholeLines(ServersDirective()) && ServersDirective() != []
  {
    WordsArePlain();
    TimeoutsArePlain();
    assert '#' !in TimeoutsBlock();
    assert '#' !in TIMEOUTS_LINE + TimeoutsBlock() + HEADER_SIZE;
    assert '#' !in ServersBlock();
    MarkIsComment(kind);
    NoHashUnmarked(Mark(kind), ServersDirective());
  }

  /** The limits have no site marker. */
  lemma {:induction false} LimitsWithoutSite(kind: Kind)
    requires kind.OfSite()
    ensures WholeLines(Limits()) && Unmarked(Mark(kind), Limits())
  {
    IndentedLine(LimitsBegin);
    IndentedLine(LimitsEnd);
    IndentedIsMark(LimitsBegin, kind);
    IndentedIsMark(LimitsEnd, kind);
    DirectiveUnmarked(kind);
    ThreeParts(Mark(kind), IndentedMarker(LimitsBegin), ServersDirective(), IndentedMarker(LimitsEnd), 0);
  }

  lemma {:induction false} ThreeParts(test: LineTest, first: Text, middle: Text, last: Text, offset: nat)
    requires Split(first) == Line(first, End) && WholeLines(first) && Split(last) == Line(last, End) &&
             WholeLines(last) && last != []
    requires Unmarked(test, middle) && WholeLines(middle) && !(test(first) && test(last))
    ensures WholeLines(first + middle + last)
    ensures MarksIn(test, first + middle + last, offset)
         == if test(first) then One(offset, offset + |first|)
            else if test(last) then One(offset + |first + middle|, offset + |first + middle| + |last|)
            else NoMark
  {
    var both := first + middle;
    assert WholeLines(both);
    LineMarks(test, first, offset);
    LineMarks(test, last, offset + |both|);
    MarksConcat(test, both, last, offset, offset + |both|);
    MarksConcat(test, first, middle, offset, offset + |first|);
    UnmarkedAnywhere(test, middle, offset + |first|);
  }

  lemma {:induction false} LineMarks(test: LineTest, line: Text, offset: nat)
    requires Split(line) == Line(line, End)
    ensures MarksIn(test, line, offset) == if test(line) then One(offset, offset + |line|) else NoMark
  {
    assert Find(test, End, offset + |line|) == NoMark;
  }

  // ---- Rendering a text that has exactly the managed limits ----

  /** What the rendering needs of the managed text: two marker lines, and invisible to the lexer. */
  ghost predicate Managed(begin: LineTest, end: LineTest, limits: Text, first: nat, last: nat) {
    && MarksComments(begin) && MarksComments(end)
    && 0 < first && 0 < last && first + last < |limits| && WholeLines(limits)
    && (forall at: nat :: MarksIn(begin, limits, at) == One(at, at + first))
    && (forall at: nat :: MarksIn(end, limits, at) == One(at + |limits| - last, at + |limits|))
    && (forall l: Lex :: l.mode.Normal? || InString(l) ==> Neutral(l, limits))
  }

  /** Two marker lines around unmarked lines, invisible to the lexer. */
  lemma {:induction false} ManagedFrom(begin: LineTest, end: LineTest, first: Text, middle: Text, last: Text)
    requires MarksComments(begin) && MarksComments(end)
    requires Split(first) == Line(first, End) && WholeLines(first) && first != []
    requires Split(last) == Line(last, End) && WholeLines(last) && last != []
    requires begin(first) && !begin(last) && end(last) && !end(first)
    requires middle != [] && WholeLines(middle) && Unmarked(begin, middle) && Unmarked(end, middle)
    requires forall l: Lex :: l.mode.Normal? || InString(l) ==> Neutral(l, first + middle + last)
    ensures Managed(begin, end, first + middle + last, |first|, |last|)
  {
    var limits := first + middle + last;
    forall at: nat
      ensures MarksIn(begin, limits, at) == One(at, at + |first|)
      ensures MarksIn(end, limits, at) == One(at + |limits| - |last|, at + |limits|)
    {
      ThreeParts(begin, first, middle, last, at);
      ThreeParts(end, first, middle, last, at);
    }
    ThreeParts(begin, first, middle, last, 0);
  }

  lemma {:induction false} LimitsAreManaged()
    ensures Managed(Mark(LimitsBegin), Mark(LimitsEnd), Limits(), |IndentedMarker(LimitsBegin)|,
                    |IndentedMarker(LimitsEnd)|)
  {
    IndentedLine(LimitsBegin);
    IndentedLine(LimitsEnd);
    IndentedIsMark(LimitsBegin, LimitsBegin);
    IndentedIsMark(LimitsBegin, LimitsEnd);
    IndentedIsMark(LimitsEnd, LimitsBegin);
    IndentedIsMark(LimitsEnd, LimitsEnd);
    DirectiveUnmarked(LimitsBegin);
    DirectiveUnmarked(LimitsEnd);
    MarkIsComment(LimitsBegin);
    MarkIsComment(LimitsEnd);
    forall l: Lex | l.mode.Normal? || InString(l) ensures Neutral(l, Limits()) {
      LimitsNeutral(l);
    }
    ManagedFrom(Mark(LimitsBegin), Mark(LimitsEnd), IndentedMarker(LimitsBegin), ServersDirective(),
                IndentedMarker(LimitsEnd));
  }

  lemma {:induction false} OpensMore(a: Text, more: Text)
    requires Opens(a) && Neutral(StateAfter(a), more)
    ensures Opens(a + more) && SkipBlank(a + more) == SkipBlank(a) && StateAfter(a + more) == StateAfter(a)
  {
    var o := SkipBlank(a);
    SkipPrefix(a, more);
    assert (a + more)[o..] == a[o..] + more;
    DepthOf(a);
    AboveLower(StateAfter(a).depth, 1, StateAfter(a), more);
    AboveNeverCloses(StateAfter(a), more);
    CloseConcat(OUTSIDE, a[o..], more);
    RunConcat(OUTSIDE, a[o..], more);
  }

  /** A neutral text moves the end of the block by exactly its length. */
  lemma {:induction false} SpliceSpan(a: Text, more: Text, b: Text)
    requires Opens(a) && Neutral(StateAfter(a), more)
    ensures GlobalSpan(a + more + b)
         == match FindClose(StateAfter(a), b)
            case None => Unterminated
            case Some(k) => Block(SkipBlank(a), |a| + |more| + k)
  {
    OpensMore(a, more);
    SpanOf(a + more, b);
  }

  predicate NoMarks(begin: LineTest, end: LineTest, s: Text) {
    Unmarked(begin, s) && Unmarked(end, s)
  }

  lemma {:induction false} MarksWithLimits(begin: LineTest, end: LineTest, a: Text, limits: Text, first: nat,
                                           last: nat, b: Text)
    requires Managed(begin, end, limits, first, last) && WholeLines(a) && NoMarks(begin, end, a) &&
             NoMarks(begin, end, b)
    ensures MarksIn(begin, a + limits + b, 0) == One(|a|, |a| + first)
    ensures MarksIn(end, a + limits + b, 0) == One(|a| + |limits| - last, |a| + |limits|)
  {
    OnlyMarkInMiddle(begin, a, limits, b);
    OnlyMarkInMiddle(end, a, limits, b);
  }

  lemma {:induction false} BlankMiddle(a: Text, more: Text, b: Text)
    ensures Blank(a + more + b, |a|, |a| + |more|) == a + Spaces(|more|) + b
    ensures (a + more + b)[..|a|] == a && (a + more + b)[|a| + |more|..] == b
  {
    assert |a| + |more| - |a| == |more|;
  }

  /** Rendering the limits over themselves changes nothing, if it succeeds. */
  lemma {:induction false} RenderLimitsAgain(alnum: AlnumTest, begin: LineTest, end: LineTest, a: Text, limits: Text,
                                             first: nat, last: nat, b: Text)
    requires Managed(begin, end, limits, first, last)
    requires AlnumOk(alnum) && Opens(a) && WholeLines(a) && NoMarks(begin, end, a) && NoMarks(begin, end, b)
    ensures RenderWith(alnum, begin, end, a + limits + b, limits)
         == match Verdict(alnum, a, b)
            case None => Ok(a + limits + b)
            case Some(error) => Err(error)
  {
    StateAtLineStart(a);
    assert Neutral(StateAfter(a), limits);
    MarksWithLimits(begin, end, a, limits, first, last, b);
    RenderMiddle(alnum, begin, end, a + limits + b, a, limits, |a| + first, |a| + |limits| - last, |a| + |limits|, b);
  }

  lemma {:induction false} RenderMiddle(alnum: AlnumTest, begin: LineTest, end: LineTest, text: Text, a: Text,
                                        limits: Text, j: nat, k: nat, l: nat, b: Text)
    requires AlnumOk(alnum) && Opens(a) && WholeLines(a) && Neutral(StateAfter(a), limits)
    requires text == a + limits + b && |a| < k < l == |a| + |limits|
    requires MarksIn(begin, text, 0) == One(|a|, j) && MarksIn(end, text, 0) == One(k, l)
    ensures RenderWith(alnum, begin, end, text, limits)
         == match Verdict(alnum, a, b)
            case None => Ok(text)
            case Some(error) => Err(error)
  {
    RenderOver(alnum, begin, end, text, limits, |a|, j, k, l);
    ReplaceAgain(alnum, text, a, limits, k, b);
  }

  lemma {:induction false} RenderOver(alnum: AlnumTest, begin: LineTest, end: LineTest, text: Text, limits: Text,
                                      i: nat, j: nat, k: nat, l: nat)
    requires MarksIn(begin, text, 0) == One(i, j) && MarksIn(end, text, 0) == One(k, l) && i < k <= l <= |text|
    ensures RenderWith(alnum, begin, end, text, limits) == ReplaceLimits(alnum, text, limits, i, k, l)
  {
  }

  lemma {:induction false} ReplaceAgain(alnum: AlnumTest, text: Text, a: Text, limits: Text, last: nat, b: Text)
    requires AlnumOk(alnum) && Opens(a) && WholeLines(a) && Neutral(StateAfter(a), limits)
    requires text == a + limits + b && |a| < last < |a| + |limits|
    ensures ReplaceLimits(alnum, text, limits, |a|, last, |a| + |limits|)
         == match Verdict(alnum, a, b)
            case None => Ok(text)
            case Some(error) => Err(error)
  {
    SpliceSpan(a, limits, b);
    var close := FindClose(StateAfter(a), b);
    if close.Some? { ReplaceClosed(alnum, text, a, limits, last, b, close.value); }
  }

  lemma {:induction false} ReplaceClosed(alnum: AlnumTest, text: Text, a: Text, limits: Text, last: nat, b: Text,
                                         k: nat)
    requires AlnumOk(alnum) && Opens(a) && WholeLines(a) && text == a + limits + b
    requires |a| < last < |a| + |limits| && FindClose(StateAfter(a), b) == Some(k) && k < |b|
    requires GlobalSpan(text) == Block(SkipBlank(a), |a| + |limits| + k)
    ensures ReplaceLimits(alnum, text, limits, |a|, last, |a| + |limits|)
         == if Hit(ScanRun(alnum, ScanAfter(alnum, a), b[..k])) then Err(UnmanagedServers) else Ok(text)
  {
    BlankMiddle(a, limits, b);
    BlankedSearch(alnum, a, |limits|, b, k);
    ReplaceKnown(alnum, text, a + Spaces(|limits|) + b, limits, |a|, last, |a| + |limits|,
                 SkipBlank(a), |a| + |limits| + k, a, b);
  }

  /** The replacement, once the block, the blanked text and the two sides are known. */
  lemma {:induction false} ReplaceKnown(alnum: AlnumTest, text: Text, blank: Text, limits: Text, i: nat, k: nat, l: nat,
        opening: nat, closing: nat, a: Text, b: Text)
    requires i < k <= l <= |text| && GlobalSpan(text) == Block(opening, closing) && opening < i && k < closing < |text|
    requires Blank(text, i, l) == blank && text[..i] == a && text[l..] == b
    ensures ReplaceLimits(alnum, text, limits, i, k, l)
         == if HasServers(alnum, blank, opening, closing) then Err(UnmanagedServers) else Ok(a + limits + b)
  {
  }

  // ---- Where a marker line stands ----

  lemma {:induction false} SplitRest(s: Text)
    requires s != []
    ensures Split(s).Line?
    ensures var t := Split(s).text;
            && t != [] && t <= s && Split(s[|t|..]) == Split(s).rest
            && (s[|t|..] == [] || t[|t| - 1] == '\n')
            && (forall k :: 0 <= k < |t| - 1 ==> t[k] != '\n')
  {
    if s[0] != '\n' && s[1..] != [] {
      SplitRest(s[1..]);
      var t := Split(s[1..]).text;
      assert s[1..][|t|..] == s[|t| + 1..];
      assert s == [s[0]] + s[1..];
    } else {
      assert Split(s).text == [s[0]];
    }
  }

  /** The lines around the only marker line. */
  lemma {:induction false} FindPosition(test: LineTest, lines: Lines, offset: nat)
    returns (before: Lines, line: Text, after: Lines)
    requires Find(test, lines, offset).One?
    ensures lines == Append(before, Line(line, after)) && test(line)
    ensures Find(test, lines, offset) == One(offset + Length(before), offset + Length(before) + |line|)
    ensures Find(test, before, 0).NoMark? && Find(test, after, 0).NoMark?
  {
    if test(lines.text) {
      before, line, after := End, lines.text, lines.rest;
      FindMoves(test, after, offset + |line|, 0);
    } else {
      var b;
      b, line, after := FindPosition(test, lines.rest, offset + |lines.text|);
      before := Line(lines.text, b);
      FindMoves(test, b, 0, |lines.text|);
    }
  }

  /** `line` starts at `n`, after the lines `before` and in front of the lines `after`. */
  ghost predicate Around(s: Text, before: Lines, line: Text, after: Lines, n: nat) {
    && n + |line| <= |s| && line != []
    && Split(s[..n]) == before && WholeLines(s[..n])
    && s[n..n + |line|] == line && Split(s[n + |line|..]) == after
    && (s[n + |line|..] == [] || line[|line| - 1] == '\n')
    && (forall k :: 0 <= k < |line| - 1 ==> line[k] != '\n')
  }

  lemma {:induction false} SliceLater(t: Text, rest: Text, i: nat, j: nat)
    requires i <= j <= |rest|
    ensures (t + rest)[|t| + i..|t| + j] == rest[i..j] && (t + rest)[|t| + j..] == rest[j..]
  {
    var s := t + rest;
    forall k | i <= k < |rest| ensures s[|t| + k] == rest[k] {}
    forall k | 0 <= k < j - i ensures s[|t| + i..|t| + j][k] == rest[i..j][k] {}
    forall k | 0 <= k < |rest| - j ensures s[|t| + j..][k] == rest[j..][k] {}
  }

  lemma {:induction false} PrefixLater(t: Text, rest: Text, before: Lines, n: nat)
    requires WholeLines(t) && Split(t) == Line(t, End) && n <= |rest| && Split(rest[..n]) == before &&
             WholeLines(rest[..n])
    ensures Split((t + rest)[..|t| + n]) == Line(t, before) && WholeLines((t + rest)[..|t| + n])
  {
    assert (t + rest)[..|t| + n] == t + rest[..n];
    SplitConcat(t, rest[..n]);
    assert Append(Line(t, End), before) == Line(t, before);
  }

  lemma {:induction false} AroundLater(s: Text, t: Text, rest: Text, before: Lines, line: Text, after: Lines, n: nat)
    requires s == t + rest && WholeLines(t) && Split(t) == Line(t, End)
    requires Around(rest, before, line, after, n)
    ensures Around(s, Line(t, before), line, after, |t| + n)
  {
    SliceLater(t, rest, n, n + |line|);
    PrefixLater(t, rest, before, n);
  }

  /** Cutting a text before and after one of its lines cuts its lines there. */
  lemma {:induction false} SplitAround(s: Text, before: Lines, line: Text, after: Lines)
    requires Split(s) == Append(before, Line(line, after))
    ensures Around(s, before, line, after, Length(before))
    decreases before
  {
    assert s != [];
    SplitRest(s);
    if before.End? {
      AroundFirst(s, line, after);
    } else {
      var t := before.text;
      SplitAround(s[|t|..], before.rest, line, after);
      OneLine(t);
      AroundLater(s, t, s[|t|..], before.rest, line, after, Length(before.rest));
    }
  }

  lemma {:induction false} AroundFirst(s: Text, line: Text, after: Lines)
    requires s != [] && Split(s) == Line(line, after)
    ensures Around(s, End, line, after, 0)
  {
    SplitRest(s);
    assert s[..0] == [] && s[0..|line|] == line;
  }

  /** The only marker line is a line: whole lines before it, no other marker around it. */
  ghost predicate MarkStands(test: LineTest, s: Text, i: nat, j: nat) {
    && i < j <= |s|
    && WholeLines(s[..i]) && (j == |s| || s[j - 1] == '\n')
    && (forall k :: i <= k < j - 1 ==> s[k] != '\n')
    && Unmarked(test, s[..i]) && Unmarked(test, s[j..]) && test(s[i..j])
  }

  lemma {:induction false} MarkPosition(test: LineTest, s: Text, i: nat, j: nat)
    requires MarksIn(test, s, 0) == One(i, j)
    ensures MarkStands(test, s, i, j)
  {
    var before, line, after := FindPosition(test, Split(s), 0);
    SplitAround(s, before, line, after);
    assert i == Length(before) && j == i + |line|;
    assert forall k :: i <= k < j ==> s[k] == s[i..j][k - i];
  }

  /** A marker pair in a text: the parts before and after it have no marker. */
  lemma {:induction false} AroundPair(begin: LineTest, end: LineTest, text: Text, i: nat, j: nat, k: nat, l: nat)
    requires MarksIn(begin, text, 0) == One(i, j) && MarksIn(end, text, 0) == One(k, l) && i < k
    ensures i < l <= |text| && WholeLines(text[..i])
    ensures Unmarked(begin, text[..i]) && Unmarked(end, text[..i]) && Unmarked(begin, text[l..]) &&
            Unmarked(end, text[l..])
  {
    MarkPosition(begin, text, i, j);
    MarkPosition(end, text, k, l);
    PairIsApart(begin, end, text, i, j, k, l);
  }

  lemma {:induction false} PairIsApart(begin: LineTest, end: LineTest, text: Text, i: nat, j: nat, k: nat, l: nat)
    requires MarkStands(begin, text, i, j) && MarkStands(end, text, k, l) && i < k
    ensures Unmarked(end, text[..i]) && Unmarked(begin, text[l..])
  {
    assert text[..k][|text[..k]| - 1] == text[k - 1] == '\n';
    assert j <= k;
    assert text[..k] == text[..i] + text[i..k];
    UnmarkedConcat(end, text[..i], text[i..k]);
    UnmarkedLater(begin, text, j, l);
  }

  lemma {:induction false} UnmarkedLater(test: LineTest, text: Text, j: nat, l: nat)
    requires j <= l <= |text| && Unmarked(test, text[j..]) && (l == |text| || (l > j && text[l - 1] == '\n'))
    ensures Unmarked(test, text[l..])
  {
    if l < |text| {
      assert text[j..] == text[j..l] + text[l..];
      assert text[j..l][|text[j..l]| - 1] == text[l - 1];
      UnmarkedConcat(test, text[j..l], text[l..]);
    } else {
      assert text[l..] == [];
    }
  }

  // ---- The three ways to render the limits, and rendering again ----

  /** With the managed region blanked, the global block still closes and has no `servers` of its own. */
  predicate StandsAlone(alnum: AlnumTest, text: Text, start: nat, end: nat)
    requires start <= end <= |text|
  {
    SpanInside(Blank(text, start, end));
    var span := GlobalSpan(Blank(text, start, end));
    span.Block? && !HasServers(alnum, Blank(text, start, end), span.opening, span.closing)
  }

  lemma {:induction false} AgainAfterReplace(alnum: AlnumTest, begin: LineTest, end: LineTest, text: Text,
                                             limits: Text, first: nat, last: nat)
    requires AlnumOk(alnum) && Managed(begin, end, limits, first, last)
    requires MarksIn(begin, text, 0).One? && MarksIn(end, text, 0).One?
    requires MarksIn(begin, text, 0).start < MarksIn(end, text, 0).start
    requires RenderWith(alnum, begin, end, text, limits).Ok?
    ensures var i, l := MarksIn(begin, text, 0).start, MarksIn(end, text, 0).end;
            var out := RenderWith(alnum, begin, end, text, limits).value;
            i < l <= |text| && out == text[..i] + limits + text[l..] &&
            (RenderWith(alnum, begin, end, out, limits) == Ok(out) <==> StandsAlone(alnum, text, i, l))
  {
    var begins, ends := MarksIn(begin, text, 0), MarksIn(end, text, 0);
    AroundPair(begin, end, text, begins.start, begins.end, ends.start, ends.end);
    MarkInside(end, text);
    SpanInside(text);
    SpanSplit(text, begins.start);
    RenderLimitsAgain(alnum, begin, end, text[..begins.start], limits, first, last, text[ends.end..]);
    BlankedVerdict(alnum, text, begins.start, ends.end);
  }

  /** The verdict on the second rendering is the one on the blanked text. */
  lemma {:induction false} BlankedVerdict(alnum: AlnumTest, text: Text, start: nat, end: nat)
    requires AlnumOk(alnum) && start < end <= |text| && Opens(text[..start]) && WholeLines(text[..start])
    ensures Verdict(alnum, text[..start], text[end..]).None? <==> StandsAlone(alnum, text, start, end)
  {
    BlankedParts(alnum, text[..start], end - start, text[end..]);
  }

  lemma {:induction false} BlankedParts(alnum: AlnumTest, a: Text, n: nat, b: Text)
    requires AlnumOk(alnum) && n > 0 && Opens(a) && WholeLines(a)
    ensures var blank := a + Spaces(n) + b;
            var span := GlobalSpan(blank);
            && (span.Block? ==> span.opening < span.closing < |blank|)
            && (Verdict(alnum, a, b).None? <==> span.Block? && !HasServers(alnum, blank, span.opening, span.closing))
  {
    StateAtLineStart(a);
    SpacesNeutral(StateAfter(a), n);
    SpacesLength(n);
    SpliceSpan(a, Spaces(n), b);
    SpanInside(a + Spaces(n) + b);
    var close := FindClose(StateAfter(a), b);
    if close.Some? { BlankedSearch(alnum, a, n, b, close.value); }
  }

  lemma {:induction false} OpenLine()
    ensures Opens("{\n") && SkipBlank("{\n") == 0 && StateAfter("{\n") == Lex(1, Normal) && WholeLines("{\n")
  {
    var s: Text := "{\n";
    assert s[0..] == s && s[1..] == "\n" && s[1..][1..] == [];
    assert !IsSpace('{');
    assert FindClose(Lex(1, Normal), s[1..]).None?;
    assert LexRun(Lex(1, Normal), s[1..]) == Lex(1, Normal);
  }

  lemma {:induction false} ScanAfterOpenLine(alnum: AlnumTest)
    requires AlnumOk(alnum)
    ensures Opens("{\n") && ScanAfter(alnum, "{\n") == IN_BLOCK
  {
    OpenLine();
    var s: Text := "{\n";
    assert s[1..] == ['\n'];
    OneChar(alnum, IN_BLOCK, '\n');
    assert !alnum('\n') && !alnum(' ');
  }

  lemma {:induction false} AgainAfterNewBlock(alnum: AlnumTest, begin: LineTest, end: LineTest, text: Text,
                                              limits: Text, first: nat, last: nat)
    requires AlnumOk(alnum) && Managed(begin, end, limits, first, last)
    requires NoMarks(begin, end, text) && GlobalSpan(text).NoBlock?
    ensures var out := "{\n" + limits + "}\n\n" + text;
            RenderWith(alnum, begin, end, text, limits) == Ok(out) &&
            RenderWith(alnum, begin, end, out, limits) == Ok(out)
  {
    var a: Text, close: Text := "{\n", "}\n\n";
    var b := close + text;
    OpenLine();
    ScanAfterOpenLine(alnum);
    NewBlockMarks(begin, text);
    NewBlockMarks(end, text);
    assert b[0] == '}' && FindClose(Lex(1, Normal), b) == Some(0);
    assert b[..0] == [];
    RenderLimitsAgain(alnum, begin, end, a, limits, first, last, b);
    assert a + limits + close + text == a + limits + b;
  }

  lemma {:induction false} NewBlockMarks(test: LineTest, text: Text)
    requires MarksComments(test) && Unmarked(test, text)
    ensures Unmarked(test, "{\n") && Unmarked(test, "}\n\n" + text)
  {
    NoHashUnmarked(test, "{\n");
    NoHashUnmarked(test, "}\n\n");
    UnmarkedConcat(test, "}\n\n", text);
  }

  /** The text in front of the closing brace, on its line, is no marker. */
  lemma {:induction false} HeadIsNoComment(a: Text, k: nat)
    requires Opens(a) && StateAfter(a) == Lex(1, Normal)
    requires k <= |a| && '\n' !in a[k..]
    ensures !Commented(a[k..] + "\n")
  {
    var o, head := SkipBlank(a), a[k..];
    if k <= o {
      assert (head + "\n")[o - k] == '{';
      NotCommented(head + "\n", '{');
    } else {
      assert a[o..] == a[o..k] + head;
      RunConcat(OUTSIDE, a[o..k], head);
      RunPossible(OUTSIDE, a[o..k]);
      if AllTame(head) { CommentedNotNormal(LexRun(OUTSIDE, a[o..k]), head); }
      TamePrefix(head);
    }
  }

  lemma {:induction false} TamePrefix(head: Text)
    ensures Commented(head + "\n") ==> AllTame(head) && '#' in head
  {
    var line := head + "\n";
    assert forall i :: 0 <= i < |head| ==> line[i] == head[i];
    if Commented(line) {
      forall i | 0 <= i < |head| ensures Tame(head[i]) { assert Tame(line[i]); }
    }
  }

  /** Adding the limits in front of the closing brace leaves no marker on either side. */
  lemma {:induction false} AddMarks(test: LineTest, a: Text, b: Text)
    requires MarksComments(test) && Unmarked(test, a + b) && b != [] && b[0] == '}'
    requires Opens(a) && StateAfter(a) == Lex(1, Normal)
    ensures Unmarked(test, a + "\n") && Unmarked(test, b)
    ensures WholeLines(a) ==> Unmarked(test, a)
  {
    var k := LastLine(a);
    var lines, head := a[..k], a[k..];
    assert a == lines + head;
    CutAtBrace(test, lines, head, b);
    UnmarkedAnywhere(test, b, |a|);
    HeadIsNoComment(a, k);
    FinishLine(test, lines, head);
    if WholeLines(a) { assert a == lines; }
  }

  lemma {:induction false} AgainAfterAdding(alnum: AlnumTest, begin: LineTest, end: LineTest, text: Text,
                                            limits: Text, first: nat, last: nat)
    requires AlnumOk(alnum) && Managed(begin, end, limits, first, last)
    requires NoMarks(begin, end, text) && GlobalSpan(text).Block? && RenderWith(alnum, begin, end, text, limits).Ok?
    requires GlobalSpan(text).closing <= |text|
    requires GlobalSpan(text).closing > 0 ==> text[GlobalSpan(text).closing - 1] != '\r'
    ensures var c := GlobalSpan(text).closing;
            var out := text[..c] + Separator(text, c) + limits + text[c..];
            RenderWith(alnum, begin, end, text, limits) == Ok(out) &&
            RenderWith(alnum, begin, end, out, limits) == Ok(out)
  {
    var o, c := GlobalSpan(text).opening, GlobalSpan(text).closing;
    SpanInside(text);
    SpanSplit(text, c);
    var prefix, b := text[..c], text[c..];
    assert text == prefix + b && prefix[o + 1..] == text[o + 1..c];
    ClosesNow(StateAfter(prefix), b);
    AddAgain(alnum, begin, end, prefix, Separator(text, c), b, limits, first, last);
  }

  lemma {:induction false} AddAgain(alnum: AlnumTest, begin: LineTest, end: LineTest, a: Text, sep: Text, b: Text,
                                    limits: Text, first: nat, last: nat)
    requires AlnumOk(alnum) && Managed(begin, end, limits, first, last) && NoMarks(begin, end, a + b) && Opens(a) &&
             FindClose(StateAfter(a), b) == Some(0)
    requires !Hit(ScanRun(alnum, IN_BLOCK, a[SkipBlank(a) + 1..]))
    requires if WholeLines(a) then sep == "" else sep == "\n"
    ensures RenderWith(alnum, begin, end, a + sep + limits + b, limits) == Ok(a + sep + limits + b)
  {
    ClosesNow(StateAfter(a), b);
    AddMarks(begin, a, b);
    AddMarks(end, a, b);
    SearchEnds(alnum, a);
    AddSeparator(alnum, a, sep);
    var closed := a + sep;
    if sep == "" { assert closed == a; }
    assert b[..0] == [];
    RenderLimitsAgain(alnum, begin, end, closed, limits, first, last, b);
  }

  lemma {:induction false} ClosesNow(l: Lex, b: Text)
    requires FindClose(l, b) == Some(0)
    ensures l == Lex(1, Normal) && b != [] && b[0] == '}'
  {
  }

  lemma {:induction false} SearchEnds(alnum: AlnumTest, a: Text)
    requires Opens(a)
    ensures var e := ScanRun(alnum, IN_BLOCK, a[SkipBlank(a) + 1..]); TokenOk(e) && (e.Scan? ==> e.lex == StateAfter(a))
  {
    var o := SkipBlank(a);
    ScanFollows(alnum, IN_BLOCK, a[o + 1..]);
    assert a[o..][1..] == a[o + 1..] && LexStep(OUTSIDE, '{') == Lex(1, Normal);
  }

  /** A token that is no `servers` does not become one when it is settled. */
  lemma {:induction false} SettledMiss(alnum: AlnumTest, e: Scan, c: char)
    requires AlnumOk(alnum) && TokenOk(e) && !Hit(e) && e.lex == Lex(1, Normal) && (c == ' ' || c == '\n')
    ensures ScanStep(alnum, e, c).Scan? && ScanStep(alnum, e, c).lex == e.lex
    ensures !Hit(ScanStep(alnum, e, c)) && TokenOk(ScanStep(alnum, e, c))
  {
    assert !alnum(c);
  }

  /** The separator keeps the block open and settles the last token. */
  lemma {:induction false} AddSeparator(alnum: AlnumTest, a: Text, sep: Text)
    requires AlnumOk(alnum) && Opens(a) && StateAfter(a) == Lex(1, Normal) && (sep == "" || sep == "\n")
    requires !Hit(ScanRun(alnum, IN_BLOCK, a[SkipBlank(a) + 1..]))
    ensures Opens(a + sep) && StateAfter(a + sep) == Lex(1, Normal) && SkipBlank(a + sep) == SkipBlank(a)
    ensures !Hit(ScanAfter(alnum, a + sep))
  {
    var e := ScanRun(alnum, IN_BLOCK, a[SkipBlank(a) + 1..]);
    SearchEnds(alnum, a);
    if sep == "" {
      assert a + sep == a;
      SettledMiss(alnum, e, ' ');
    } else {
      NewlineKeepsOpen(a, sep);
      assert (a + sep)[SkipBlank(a) + 1..] == a[SkipBlank(a) + 1..] + ['\n'];
      ScanConcat(alnum, IN_BLOCK, a[SkipBlank(a) + 1..], ['\n']);
      OneChar(alnum, e, '\n');
      SettledMiss(alnum, e, '\n');
      SettledMiss(alnum, ScanStep(alnum, e, '\n'), ' ');
    }
  }

  lemma {:induction false} NewlineKeepsOpen(a: Text, sep: Text)
    requires Opens(a) && StateAfter(a) == Lex(1, Normal) && sep == "\n"
    ensures Opens(a + sep) && StateAfter(a + sep) == Lex(1, Normal) && SkipBlank(a + sep) == SkipBlank(a)
  {
    assert sep[1..] == [];
    assert Neutral(Lex(1, Normal), sep);
    OpensMore(a, sep);
  }

  // ---- One top-level `servers` ----

  /**
   Where the limits were rendered and nothing else in the block is a `servers` directive, the block
   has one exactly when the limits stand at its top level, outside strings and nested blocks.
   */
  lemma {:induction false} ManagedServersExact(alnum: AlnumTest, a: Text, b: Text, k: nat)
    requires AlnumOk(alnum) && Opens(a) && WholeLines(a) && FindClose(StateAfter(a), b) == Some(k) && k < |b|
    requires Verdict(alnum, a, b).None?
    ensures |a + Limits() + b| == |a| + |Limits()| + |b|
    ensures HasServers(alnum, a + Limits() + b, SkipBlank(a), |a| + |Limits()| + k) <==> StateAfter(a) == Lex(1, Normal)
  {
    LimitsSeenOrNot(alnum, a);
    ServersExactFor(alnum, a, Limits(), b, k);
  }

  /** Found at the top level, and like a space elsewhere. */
  predicate SeenOrNot(alnum: AlnumTest, e: Scan, limits: Text) {
    if e == IN_BLOCK then ScanRun(alnum, e, limits) == Found
    else e.Scan? ==> ScanRun(alnum, e, limits) == e == ScanStep(alnum, e, ' ')
  }

  lemma {:induction false} LimitsSeenOrNot(alnum: AlnumTest, a: Text)
    requires AlnumOk(alnum) && Opens(a) && WholeLines(a)
    ensures SeenOrNot(alnum, ScanRun(alnum, IN_BLOCK, a[SkipBlank(a) + 1..]), Limits())
  {
    var e := ScanRun(alnum, IN_BLOCK, a[SkipBlank(a) + 1..]);
    if e.Scan? {
      DirectivesAtLineStart(alnum, a);
      if e == IN_BLOCK { LimitsAreFound(alnum); } else { LimitsUnseen(alnum, e); }
    }
  }

  lemma {:induction false} ServersExactFor(alnum: AlnumTest, a: Text, limits: Text, b: Text, k: nat)
    requires AlnumOk(alnum) && Opens(a) && WholeLines(a) && FindClose(StateAfter(a), b) == Some(k) && k < |b|
    requires Verdict(alnum, a, b).None? && SeenOrNot(alnum, ScanRun(alnum, IN_BLOCK, a[SkipBlank(a) + 1..]), limits)
    ensures |a + limits + b| == |a| + |limits| + |b|
    ensures HasServers(alnum, a + limits + b, SkipBlank(a), |a| + |limits| + k) <==> StateAfter(a) == Lex(1, Normal)
  {
    var e := ScanRun(alnum, IN_BLOCK, a[SkipBlank(a) + 1..]);
    ScanInside(alnum, a, limits, b, k);
    if e.Scan? { DirectivesAtLineStart(alnum, a); } else { FoundStays(alnum, b[..k]); }
    SearchThrough(alnum, e, limits, b[..k]);
  }

  /** From the top level the search stops in `limits`, from elsewhere it goes on as if they were blank. */
  lemma {:induction false} SearchThrough(alnum: AlnumTest, e: Scan, limits: Text, rest: Text)
    requires e == IN_BLOCK ==> ScanRun(alnum, e, limits) == Found
    requires e.Scan? && e != IN_BLOCK ==> ScanRun(alnum, e, limits) == e == ScanStep(alnum, e, ' ')
    requires !Hit(ScanRun(alnum, ScanStep(alnum, e, ' '), rest))
    ensures Hit(ScanRun(alnum, ScanRun(alnum, e, limits), rest)) <==> e == IN_BLOCK
  {
    FoundStays(alnum, rest);
  }

  /** The search through `a`, the limits and the first part of `b`. */
  lemma {:induction false} ScanInside(alnum: AlnumTest, a: Text, limits: Text, b: Text, k: nat)
    requires Opens(a) && k < |b|
    ensures |a + limits + b| == |a| + |limits| + |b|
    ensures HasServers(alnum, a + limits + b, SkipBlank(a), |a| + |limits| + k)
         == Hit(ScanRun(alnum, ScanRun(alnum, ScanRun(alnum, IN_BLOCK, a[SkipBlank(a) + 1..]), limits), b[..k]))
  {
    var head := a[SkipBlank(a) + 1..];
    SliceThrough(a, limits, b, SkipBlank(a) + 1, k);
    ScanConcat(alnum, IN_BLOCK, head, limits + b[..k]);
    ScanConcat(alnum, ScanRun(alnum, IN_BLOCK, head), limits, b[..k]);
  }

  lemma {:induction false} DirectivesAtLineStart(alnum: AlnumTest, a: Text)
    requires AlnumOk(alnum) && Opens(a) && WholeLines(a) && ScanRun(alnum, IN_BLOCK, a[SkipBlank(a) + 1..]).Scan?
    ensures var e := ScanRun(alnum, IN_BLOCK, a[SkipBlank(a) + 1..]);
            && e.token == [] && e.lex == StateAfter(a) && e.lex.depth >= 1
            && (e.lex.mode.Normal? || InString(e.lex)) && (e.lex == Lex(1, Normal) ==> e == IN_BLOCK)
  {
    var head := a[SkipBlank(a) + 1..];
    ScanLine(alnum, a);
    assert a[|a| - 1] == '\n' && head[|head| - 1] == '\n';
    ScanAtLineStart(alnum, IN_BLOCK, head);
    StateAtLineStart(a);
  }

  lemma {:induction false} LimitsUnseen(alnum: AlnumTest, e: Scan)
    requires AlnumOk(alnum) && e.Scan? && e.token == [] && e.lex.depth >= 1 && e.lex != Lex(1, Normal)
    requires e.lex.mode.Normal? || InString(e.lex)
    ensures ScanRun(alnum, e, Limits()) == e == ScanStep(alnum, e, ' ')
  {
    LimitsNeutral(e.lex);
    LimitsQuoteFree();
    NeutralUnseen(alnum, e, Limits());
  }

  lemma {:induction false} NeutralUnseen(alnum: AlnumTest, e: Scan, s: Text)
    requires AlnumOk(alnum) && e.Scan? && e.token == [] && e.lex.depth >= 1 && e.lex != Lex(1, Normal)
    requires e.lex.mode.Normal? || InString(e.lex)
    requires Neutral(e.lex, s) && QuoteFree(s)
    ensures ScanRun(alnum, e, s) == e == ScanStep(alnum, e, ' ')
  {
    if e.lex.mode.Normal? {
      AboveLower(e.lex.depth, 2, e.lex, s);
      DeepScan(alnum, e, s);
    } else {
      StringScan(alnum, e, s);
    }
  }

  // ---- Placing the site ----

  function StripBreaks(s: Text): Text {
    LStripBreaks(RStripBreaks(s))
  }

  function MarkerLine(kind: Kind): Text {
    kind.Marker() + "\n"
  }

  function Wrapped(site: Text): Text {
    MarkerLine(SiteBegin) + (site + "\n") + MarkerLine(SiteEnd)
  }

  predicate EndsWith(s: Text, suffix: Text) {
    |suffix| <= |s| && s[|s| - |suffix|..] == suffix
  }

  /** The current file, with the separators that an appended site needs. */
  function Base(current: Text): Text {
    if current == [] then []
    else
      var base := if IsBreak(current[|current| - 1]) then current else current + "\n";
      if EndsWith(base, "\n\n") || EndsWith(base, "\r\n\r\n") then base else base + "\n"
  }

  function CheckSite(siteText: Text, domain: Text): Option<MergeError> {
    var site := StripBreaks(siteText);
    if site == [] then Some(EmptySite)
    else if !Contains(site, domain) then Some(SiteWithoutDomain)
    else if !Unmarked(Mark(SiteBegin), site) || !Unmarked(Mark(SiteEnd), site) then Some(SiteWithMarkers)
    else None
  }

  /** The text before and after the managed site. */
  datatype Places = Places(prefix: Text, suffix: Text)

  function FindPlace(current: Text, site: Text, domain: Text): Result<Places, MergeError> {
    var begins, ends := MarksIn(Mark(SiteBegin), current, 0), MarksIn(Mark(SiteEnd), current, 0);
    MarkInside(Mark(SiteBegin), current);
    MarkInside(Mark(SiteEnd), current);
    if !begins.NoMark? || !ends.NoMark? then
      if !begins.One? || !ends.One? then Err(SitePair)
      else if begins.start >= ends.start then Err(SiteOrder)
      else
        var prefix, suffix := current[..begins.start], current[ends.end..];
        if Contains(prefix, domain) || Contains(suffix, domain) then Err(DomainOutside) else Ok(Places(prefix, suffix))
    else if RStripBreaks(current) == RStripBreaks(site) then Ok(Places([], []))
    else if Contains(current, domain) then Err(DomainUnmarked)
    else Ok(Places(Base(current), []))
  }

  function Placed(p: Places, site: Text): Text {
    p.prefix + Wrapped(site) + p.suffix
  }

  function Render(alnum: AlnumTest, current: Text, siteText: Text, domain: Text): Result<Text, MergeError> {
    match CheckSite(siteText, domain)
    case Some(error) => Err(error)
    case None =>
      var site := StripBreaks(siteText);
      var p :- FindPlace(current, site, domain);
      RenderGlobalLimits(alnum, Placed(p, site))
  }

  // ---- What surrounds the site ----

  /** No line that passes one of the tests, and no mention of the domain. */
  ghost predicate Bare(begin: LineTest, end: LineTest, domain: Text, s: Text) {
    Unmarked(begin, s) && Unmarked(end, s) && !Contains(s, domain)
  }

  /** The site can be found between them: whole lines before it, and both sides bare. */
  ghost predicate TidyFor(begin: LineTest, end: LineTest, prefix: Text, suffix: Text, domain: Text) {
    WholeLines(prefix) && Bare(begin, end, domain, prefix) && Bare(begin, end, domain, suffix)
  }

  ghost predicate Tidy(prefix: Text, suffix: Text, domain: Text) {
    TidyFor(Mark(SiteBegin), Mark(SiteEnd), prefix, suffix, domain)
  }

  predicate CleanDomain(domain: Text) {
    '\n' !in domain && '\r' !in domain && !Contains("{\n" + Limits() + "}\n\n", domain)
  }

  lemma {:induction false} CleanIsNotEmpty(domain: Text)
    requires CleanDomain(domain)
    ensures domain != []
  {
    ContainsEmpty("{\n" + Limits() + "}\n\n");
  }

  lemma {:induction false} ContainsEmpty(s: Text)
    ensures Contains(s, [])
  {
    assert [] <= s[0..];
  }

  lemma {:induction false} RStripNewline(s: Text)
    ensures RStripBreaks(s + "\n") == RStripBreaks(s)
  {
    assert (s + "\n")[..|s|] == s;
  }

  lemma {:induction false} UnmarkedNewline(kind: Kind, s: Text)
    requires Unmarked(Mark(kind), s)
    ensures Unmarked(Mark(kind), s + "\n")
  {
    MarkIsComment(kind);
    NoHashUnmarked(Mark(kind), "\n");
    var k := LastLine(s);
    var lines, head := s[..k], s[k..];
    assert s == lines + head;
    if head == [] {
      assert s == lines;
      UnmarkedConcat(Mark(kind), s, "\n");
    } else {
      UnmarkedConcat(Mark(kind), lines, head);
      OneLine(head);
      LineMarks(Mark(kind), head, 0);
      RStripNewline(head);
      assert IsMark(kind, head + "\n") == IsMark(kind, head);
      FinishLine(Mark(kind), lines, head);
    }
  }

  lemma {:induction false} ContainsNewline(s: Text, d: Text)
    requires '\n' !in d && d != [] && Contains(s + "\n", d)
    ensures Contains(s, d)
  {
    var i :| 0 <= i <= |s + "\n"| && d <= (s + "\n")[i..];
    var t := s + "\n";
    if i + |d| > |s| { CharOf(t, d, i, |s|); }
    assert d <= s[i..];
  }

  lemma {:induction false} BaseTidy(current: Text, domain: Text)
    requires CleanDomain(domain) && !Contains(current, domain)
    requires Unmarked(Mark(SiteBegin), current) && Unmarked(Mark(SiteEnd), current)
    ensures Tidy(Base(current), [], domain)
  {
    CleanIsNotEmpty(domain);
    UnmarkedNewline(SiteBegin, current);
    UnmarkedNewline(SiteEnd, current);
    UnmarkedNewline(SiteBegin, current + "\n");
    UnmarkedNewline(SiteEnd, current + "\n");
    if Contains(current + "\n", domain) { ContainsNewline(current, domain); }
    if Contains(current + "\n" + "\n", domain) { ContainsNewline(current + "\n", domain); }
    assert !Contains([], domain);
  }

  lemma {:induction false} PlacesTidy(current: Text, site: Text, domain: Text)
    requires CleanDomain(domain) && FindPlace(current, site, domain).Ok?
    ensures var p := FindPlace(current, site, domain).value; Tidy(p.prefix, p.suffix, domain)
  {
    var begins, ends := MarksIn(Mark(SiteBegin), current, 0), MarksIn(Mark(SiteEnd), current, 0);
    CleanIsNotEmpty(domain);
    assert !Contains([], domain);
    if begins.One? && ends.One? {
      AroundPair(Mark(SiteBegin), Mark(SiteEnd), current, begins.start, begins.end, ends.start, ends.end);
    } else if RStripBreaks(current) != RStripBreaks(site) {
      BaseTidy(current, domain);
    }
  }

  /** A site without markers, as `CheckSite` lets it through. */
  predicate SiteOk(site: Text) {
    Unmarked(Mark(SiteBegin), site) && Unmarked(Mark(SiteEnd), site)
  }

  lemma {:induction false} MarkerAlone(kind: Kind, other: Kind)
    requires kind.OfSite() && other.OfSite()
    ensures MarkerLine(kind) != [] && WholeLines(MarkerLine(kind)) &&
            Split(MarkerLine(kind)) == Line(MarkerLine(kind), End)
    ensures Mark(other)(MarkerLine(kind)) <==> other == kind
  {
    MarkersHaveNoNewline(kind);
    OneLine(MarkerLine(kind));
    MarkerEnds(kind);
    MarkerEnds(other);
    RStripNewline(kind.Marker());
  }

  lemma {:induction false} WrappedMarks(site: Text, kind: Kind, at: nat)
    requires SiteOk(site) && kind.OfSite()
    ensures WholeLines(Wrapped(site))
    ensures var m := MarksIn(Mark(kind), Wrapped(site), at);
            && m.One? && (kind.SiteBegin? ==> m.start == at) &&
               (kind.SiteEnd? ==> at < m.start && m.end == at + |Wrapped(site)|)
  {
    MarkerAlone(SiteBegin, kind);
    MarkerAlone(SiteEnd, kind);
    UnmarkedNewline(kind, site);
    WrapMarks(Mark(kind), MarkerLine(SiteBegin), site + "\n", MarkerLine(SiteEnd), at);
  }

  lemma {:induction false} WrapMarks(test: LineTest, first: Text, middle: Text, last: Text, at: nat)
    requires Split(first) == Line(first, End) && WholeLines(first) && Split(last) == Line(last, End) && WholeLines(last)
    requires first != [] && last != [] && Unmarked(test, middle) && WholeLines(middle) && (test(first) <==> !test(last))
    ensures WholeLines(first + middle + last)
    ensures var m := MarksIn(test, first + middle + last, at);
            m.One? && (if test(first) then m.start == at else at < m.start && m.end == at + |first + middle + last|)
  {
    ThreeParts(test, first, middle, last, at);
  }

  /** Looking for the place again finds the same one. */
  lemma {:induction false} FindPlaceAgain(p: Places, site: Text, domain: Text)
    requires SiteOk(site) && Tidy(p.prefix, p.suffix, domain)
    ensures FindPlace(Placed(p, site), site, domain) == Ok(p)
  {
    var text, wrapped := Placed(p, site), Wrapped(site);
    WrappedMarks(site, SiteBegin, |p.prefix|);
    WrappedMarks(site, SiteEnd, |p.prefix|);
    OnlyMarkInMiddle(Mark(SiteBegin), p.prefix, wrapped, p.suffix);
    OnlyMarkInMiddle(Mark(SiteEnd), p.prefix, wrapped, p.suffix);
    CutPlaced(p.prefix, wrapped, p.suffix);
  }

  lemma {:induction false} CutPlaced(a: Text, m: Text, b: Text)
    ensures (a + m + b)[..|a|] == a && (a + m + b)[|a| + |m|..] == b
  {
  }

  // ---- The text before the site stays tidy ----

  lemma {:induction false} NotInParts(a: Text, b: Text, domain: Text)
    requires WholeLines(a) && '\n' !in domain && domain != [] && !Contains(a, domain) && !Contains(b, domain)
    ensures !Contains(a + b, domain)
  {
    if Contains(a + b, domain) { ContainsParts(a, b, domain); }
  }

  lemma {:induction false} NotInPart(a: Text, b: Text, c: Text, domain: Text)
    requires !Contains(a + b + c, domain)
    ensures !Contains(b, domain)
  {
    if Contains(b, domain) { ContainsMore(a, b, c, domain); }
  }

  lemma {:induction false} LimitsTidy(domain: Text)
    requires CleanDomain(domain)
    ensures domain != [] && WholeLines(Limits()) && Limits() != []
    ensures !Contains(Limits(), domain) && !Contains("{\n", domain) && !Contains("}\n\n", domain)
    ensures Unmarked(Mark(SiteBegin), Limits()) && Unmarked(Mark(SiteEnd), Limits())
  {
    CleanIsNotEmpty(domain);
    LimitsWithoutSite(SiteBegin);
    LimitsWithoutSite(SiteEnd);
    NotInPart("{\n", Limits(), "}\n\n", domain);
    assert [] + "{\n" + (Limits() + "}\n\n") == "{\n" + Limits() + "}\n\n";
    NotInPart([], "{\n", Limits() + "}\n\n", domain);
    assert "{\n" + Limits() + "}\n\n" + [] == "{\n" + Limits() + "}\n\n";
    NotInPart("{\n" + Limits(), "}\n\n", [], domain);
  }

  lemma {:induction false} BareConcat(begin: LineTest, end: LineTest, domain: Text, a: Text, b: Text)
    requires WholeLines(a) && '\n' !in domain && domain != [] && Bare(begin, end, domain, a) &&
             Bare(begin, end, domain, b)
    ensures Bare(begin, end, domain, a + b)
  {
    UnmarkedConcat(begin, a, b);
    UnmarkedConcat(end, a, b);
    NotInParts(a, b, domain);
  }

  lemma {:induction false} BareParts(begin: LineTest, end: LineTest, domain: Text, a: Text, b: Text)
    requires WholeLines(a) && Bare(begin, end, domain, a + b)
    ensures Bare(begin, end, domain, a) && Bare(begin, end, domain, b)
  {
    UnmarkedConcat(begin, a, b);
    UnmarkedConcat(end, a, b);
    NotInHalves(a, b, domain);
  }

  lemma {:induction false} NotInHalves(a: Text, b: Text, domain: Text)
    requires !Contains(a + b, domain)
    ensures !Contains(a, domain) && !Contains(b, domain)
  {
    assert [] + a + b == a + b && a + b + [] == a + b;
    NotInPart([], a, b, domain);
    NotInPart(a, b, [], domain);
  }

  /** `a` and `b` around the limits, as they stand before the site. */
  lemma {:induction false} TidyAround(begin: LineTest, end: LineTest, a: Text, limits: Text, b: Text, suffix: Text,
                                      domain: Text)
    requires '\n' !in domain && domain != [] && TidyFor(begin, end, a, suffix, domain)
    requires TidyFor(begin, end, limits, suffix, domain) && TidyFor(begin, end, b, suffix, domain)
    ensures TidyFor(begin, end, a + limits + b, suffix, domain)
  {
    WholeConcat(a, limits);
    WholeConcat(a + limits, b);
    BareConcat(begin, end, domain, a, limits);
    BareConcat(begin, end, domain, a + limits, b);
  }

  lemma {:induction false} WholeConcat(a: Text, b: Text)
    requires WholeLines(a) && WholeLines(b)
    ensures WholeLines(a + b)
  {
  }

  /** Whole lines cut out of the text before the site. */
  lemma {:induction false} TidyPart(begin: LineTest, end: LineTest, a: Text, r: Text, b: Text, suffix: Text,
                                    domain: Text)
    requires WholeLines(a) && WholeLines(r) && WholeLines(b) && TidyFor(begin, end, a + r + b, suffix, domain)
    ensures TidyFor(begin, end, a, suffix, domain) && TidyFor(begin, end, b, suffix, domain)
  {
    WholeConcat(a, r);
    BareParts(begin, end, domain, a + r, b);
    BareParts(begin, end, domain, a, r);
  }

  // ---- Rendering is idempotent ----

  predicate LimitsMarked(begin: LineTest, end: LineTest, text: Text) {
    !NoMarks(begin, end, text)
  }

  /** Without managed limits there is nothing to check; with them, the block without them must stand alone. */
  predicate KeepsItsBlock(alnum: AlnumTest, begin: LineTest, end: LineTest, text: Text) {
    var begins, ends := MarksIn(begin, text, 0), MarksIn(end, text, 0);
    LimitsMarked(begin, end, text) ==>
      begins.One? && ends.One? && begins.start <= ends.end <= |text| && StandsAlone(alnum, text, begins.start, ends.end)
  }

  /**
   The global options block, if there is one, closes in the text before the site, and not right after a bare carriage
   return.
   */
  predicate BlockWithin(text: Text, prefix: Text) {
    var span := GlobalSpan(text);
    span.Block? ==> span.closing < |prefix| && (span.closing > 0 ==> prefix[span.closing - 1] != '\r')
  }

  /** What the proof uses of the limits: the lexers and the search for the place do not mind them. */
  ghost predicate Harmless(begin: LineTest, end: LineTest, sb: LineTest, se: LineTest, limits: Text, first: nat,
                           last: nat, domain: Text) {
    && Managed(begin, end, limits, first, last)
    && MarksComments(sb) && MarksComments(se) && Unmarked(sb, limits) && Unmarked(se, limits)
    && '\n' !in domain && domain != []
    && !Contains(limits, domain) && !Contains("{\n", domain) && !Contains("}\n\n", domain)
  }

  lemma {:induction false} LimitsAreHarmless(domain: Text)
    requires CleanDomain(domain)
    ensures Harmless(Mark(LimitsBegin), Mark(LimitsEnd), Mark(SiteBegin), Mark(SiteEnd), Limits(),
                     |IndentedMarker(LimitsBegin)|, |IndentedMarker(LimitsEnd)|, domain)
  {
    LimitsAreManaged();
    LimitsTidy(domain);
    MarkIsComment(SiteBegin);
    MarkIsComment(SiteEnd);
  }

  /** The text before the site that the rendering of the limits leaves, and whether it renders to itself. */
  ghost predicate Rerenders(alnum: AlnumTest, begin: LineTest, end: LineTest, sb: LineTest, se: LineTest, text: Text,
                            m: Text, suffix: Text, limits: Text, domain: Text, prefix': Text) {
    && RenderWith(alnum, begin, end, text, limits) == Ok(prefix' + m + suffix)
    && TidyFor(sb, se, prefix', suffix, domain)
    && (RenderWith(alnum, begin, end, prefix' + m + suffix, limits) == Ok(prefix' + m + suffix) <==>
        KeepsItsBlock(alnum, begin, end, text))
  }

  lemma {:induction false} RenderReplacing(alnum: AlnumTest, begin: LineTest, end: LineTest, sb: LineTest,
                                           se: LineTest, text: Text, prefix: Text, m: Text, suffix: Text,
                                           limits: Text, first: nat, last: nat, domain: Text)
    returns (prefix': Text)
    requires AlnumOk(alnum) && Harmless(begin, end, sb, se, limits, first, last, domain) &&
             TidyFor(sb, se, prefix, suffix, domain)
    requires text == prefix + m + suffix && m != [] && BlockWithin(text, prefix)
    requires LimitsMarked(begin, end, text) && RenderWith(alnum, begin, end, text, limits).Ok?
    ensures Rerenders(alnum, begin, end, sb, se, text, m, suffix, limits, domain, prefix')
  {
    assert prefix + (m + suffix) == text;
    var i, j, k, l := FindRegion(alnum, begin, end, text, prefix, m + suffix, limits);
    ReplacedTidy(sb, se, prefix, i, l, limits, suffix, domain);
    ReplacedKeeps(alnum, begin, end, text, limits, first, last, i, j, k, l);
    Reassemble(prefix, m, suffix, i, l, limits);
    prefix' := prefix[..i] + limits + prefix[l..];
  }

  /** The managed region of a text that renders, which lies before the site. */
  lemma {:induction false} FindRegion(alnum: AlnumTest, begin: LineTest, end: LineTest, text: Text, prefix: Text,
                                      rest: Text, limits: Text)
    returns (i: nat, j: nat, k: nat, l: nat)
    requires WholeLines(prefix) && text == prefix + rest && rest != [] && BlockWithin(text, prefix)
    requires LimitsMarked(begin, end, text) && RenderWith(alnum, begin, end, text, limits).Ok?
    ensures MarksIn(begin, text, 0) == One(i, j) && MarksIn(end, text, 0) == One(k, l) && i < k
    ensures i < l <= |prefix| && WholeLines(prefix[..i]) && WholeLines(prefix[i..l]) && WholeLines(prefix[l..])
  {
    i, j, k, l := PairOf(alnum, begin, end, text, limits);
    RegionInPrefix(begin, end, text, prefix, rest, i, j, k, l);
  }

  /** A successful rendering of a marked text has found one pair, inside the global block. */
  lemma {:induction false} PairOf(alnum: AlnumTest, begin: LineTest, end: LineTest, text: Text, limits: Text)
    returns (i: nat, j: nat, k: nat, l: nat)
    requires LimitsMarked(begin, end, text) && RenderWith(alnum, begin, end, text, limits).Ok?
    ensures MarksIn(begin, text, 0) == One(i, j) && MarksIn(end, text, 0) == One(k, l)
    ensures i < k && GlobalSpan(text).Block? && k < GlobalSpan(text).closing
  {
    var begins, ends := MarksIn(begin, text, 0), MarksIn(end, text, 0);
    i, j, k, l := begins.start, begins.end, ends.start, ends.end;
  }

  lemma {:induction false} ReplacedKeeps(alnum: AlnumTest, begin: LineTest, end: LineTest, text: Text, limits: Text,
                                         first: nat, last: nat, i: nat, j: nat, k: nat, l: nat)
    requires AlnumOk(alnum) && Managed(begin, end, limits, first, last) &&
             RenderWith(alnum, begin, end, text, limits).Ok?
    requires MarksIn(begin, text, 0) == One(i, j) && MarksIn(end, text, 0) == One(k, l) && i < k
    ensures i < l <= |text|
    ensures var out := text[..i] + limits + text[l..];
            RenderWith(alnum, begin, end, text, limits) == Ok(out) &&
            (RenderWith(alnum, begin, end, out, limits) == Ok(out) <==> KeepsItsBlock(alnum, begin, end, text))
  {
    AgainAfterReplace(alnum, begin, end, text, limits, first, last);
  }

  lemma {:induction false} ReplacedTidy(begin: LineTest, end: LineTest, prefix: Text, i: nat, l: nat, limits: Text,
                                        suffix: Text, domain: Text)
    requires i <= l <= |prefix| && WholeLines(prefix[..i]) && WholeLines(prefix[i..l]) && WholeLines(prefix[l..])
    requires TidyFor(begin, end, prefix, suffix, domain) && TidyFor(begin, end, limits, suffix, domain)
    requires '\n' !in domain && domain != []
    ensures TidyFor(begin, end, prefix[..i] + limits + prefix[l..], suffix, domain)
  {
    assert prefix == prefix[..i] + prefix[i..l] + prefix[l..];
    TidyPart(begin, end, prefix[..i], prefix[i..l], prefix[l..], suffix, domain);
    TidyAround(begin, end, prefix[..i], limits, prefix[l..], suffix, domain);
  }

  lemma {:induction false} Reassemble(prefix: Text, m: Text, suffix: Text, i: nat, l: nat, limits: Text)
    requires i <= l <= |prefix|
    ensures var text := prefix + m + suffix;
            text[..i] + limits + text[l..] == prefix[..i] + limits + prefix[l..] + m + suffix
  {
    var text := prefix + m + suffix;
    assert text[..i] == prefix[..i] && text[l..] == prefix[l..] + m + suffix;
  }

  /** The managed region ends with its line, so it lies wholly before the site. */
  lemma {:induction false} RegionInPrefix(begin: LineTest, end: LineTest, text: Text, prefix: Text, rest: Text,
                                          i: nat, j: nat, k: nat, l: nat)
    requires text == prefix + rest && WholeLines(prefix) && rest != []
    requires MarksIn(begin, text, 0) == One(i, j) && MarksIn(end, text, 0) == One(k, l)
    requires i < k < |prefix|
    ensures i < l <= |prefix| && WholeLines(prefix[..i]) && WholeLines(prefix[i..l]) && WholeLines(prefix[l..])
  {
    MarkPosition(begin, text, i, j);
    MarkPosition(end, text, k, l);
    assert text[|prefix| - 1] == prefix[|prefix| - 1] == '\n';
    assert l <= |prefix|;
    assert text[..i] == prefix[..i];
    assert prefix[l - 1] == text[l - 1];
  }

  lemma {:induction false} RenderIntoNewBlock(alnum: AlnumTest, begin: LineTest, end: LineTest, sb: LineTest,
                                              se: LineTest, text: Text, prefix: Text, m: Text, suffix: Text,
                                              limits: Text, first: nat, last: nat, domain: Text)
    returns (prefix': Text)
    requires AlnumOk(alnum) && Harmless(begin, end, sb, se, limits, first, last, domain) &&
             TidyFor(sb, se, prefix, suffix, domain)
    requires text == prefix + m + suffix && NoMarks(begin, end, text) && GlobalSpan(text).NoBlock?
    ensures Rerenders(alnum, begin, end, sb, se, text, m, suffix, limits, domain, prefix')
  {
    AgainAfterNewBlock(alnum, begin, end, text, limits, first, last);
    NewBlockTidy(sb, se, prefix, limits, suffix, domain);
    prefix' := "{\n" + limits + ("}\n\n" + prefix);
    NewBlockParts("{\n", limits, "}\n\n", prefix, m, suffix);
  }

  lemma {:induction false} NewBlockParts(a: Text, limits: Text, b: Text, prefix: Text, m: Text, suffix: Text)
    ensures a + limits + b + (prefix + m + suffix) == a + limits + (b + prefix) + m + suffix
  {
  }

  lemma {:induction false} NewBlockTidy(begin: LineTest, end: LineTest, prefix: Text, limits: Text, suffix: Text,
                                        domain: Text)
    requires MarksComments(begin) && MarksComments(end)
    requires TidyFor(begin, end, prefix, suffix, domain) && TidyFor(begin, end, limits, suffix, domain)
    requires '\n' !in domain && domain != [] && !Contains("{\n", domain) && !Contains("}\n\n", domain)
    ensures TidyFor(begin, end, "{\n" + limits + ("}\n\n" + prefix), suffix, domain)
  {
    NewBlockMarks(begin, prefix);
    NewBlockMarks(end, prefix);
    NotInParts("}\n\n", prefix, domain);
    TidyAround(begin, end, "{\n", limits, "}\n\n" + prefix, suffix, domain);
  }

  function Added(prefix: Text, c: nat, limits: Text): Text
    requires c <= |prefix|
  {
    prefix[..c] + Separator(prefix, c) + limits + prefix[c..]
  }

  lemma {:induction false} RenderIntoBlock(alnum: AlnumTest, begin: LineTest, end: LineTest, sb: LineTest,
                                           se: LineTest, text: Text, prefix: Text, m: Text, suffix: Text,
                                           limits: Text, first: nat, last: nat, domain: Text)
    returns (prefix': Text)
    requires AlnumOk(alnum) && Harmless(begin, end, sb, se, limits, first, last, domain) &&
             TidyFor(sb, se, prefix, suffix, domain)
    requires text == prefix + m + suffix && BlockWithin(text, prefix)
    requires NoMarks(begin, end, text) && GlobalSpan(text).Block? && RenderWith(alnum, begin, end, text, limits).Ok?
    ensures Rerenders(alnum, begin, end, sb, se, text, m, suffix, limits, domain, prefix')
  {
    var c := GlobalSpan(text).closing;
    CutInPrefix(prefix, m, suffix, c);
    AddedRerenders(alnum, begin, end, text, prefix, m, suffix, c, limits, first, last);
    AddedStaysTidy(sb, se, text, prefix, m, suffix, c, limits, domain);
    prefix' := Added(prefix, c, limits);
  }

  lemma {:induction false} AddedRerenders(alnum: AlnumTest, begin: LineTest, end: LineTest, text: Text, prefix: Text,
                                          m: Text, suffix: Text, c: nat, limits: Text, first: nat, last: nat)
    requires AlnumOk(alnum) && Managed(begin, end, limits, first, last) && text == prefix + m + suffix && c < |prefix|
    requires NoMarks(begin, end, text) && GlobalSpan(text).Block? && GlobalSpan(text).closing == c &&
             RenderWith(alnum, begin, end, text, limits).Ok?
    requires c > 0 ==> prefix[c - 1] != '\r'
    ensures var out := Added(prefix, c, limits) + m + suffix;
            RenderWith(alnum, begin, end, text, limits) == Ok(out) &&
            RenderWith(alnum, begin, end, out, limits) == Ok(out)
  {
    CutInPrefix(prefix, m, suffix, c);
    AgainAfterAdding(alnum, begin, end, text, limits, first, last);
    Group(prefix[..c] + Separator(prefix, c) + limits, prefix[c..], m, suffix);
  }

  lemma {:induction false} Group(a: Text, b: Text, m: Text, suffix: Text)
    ensures a + (b + m + suffix) == a + b + m + suffix
  {
  }

  lemma {:induction false} AddedStaysTidy(begin: LineTest, end: LineTest, text: Text, prefix: Text, m: Text,
                                          suffix: Text, c: nat, limits: Text, domain: Text)
    requires MarksComments(begin) && MarksComments(end) && '\n' !in domain && domain != []
    requires TidyFor(begin, end, limits, suffix, domain) && TidyFor(begin, end, prefix, suffix, domain)
    requires text == prefix + m + suffix && c < |prefix| && (c > 0 ==> prefix[c - 1] != '\r')
    requires GlobalSpan(text).Block? && GlobalSpan(text).closing == c
    ensures TidyFor(begin, end, Added(prefix, c, limits), suffix, domain)
  {
    var a, b := prefix[..c], prefix[c..];
    SpanInside(text);
    CutInPrefix(prefix, m, suffix, c);
    SpanSplit(text, c);
    ClosesNow(StateAfter(a), text[c..]);
    assert a + b == prefix;
    AddedTidy(begin, end, a, Separator(prefix, c), b, limits, suffix, domain);
  }

  lemma {:induction false} CutInPrefix(prefix: Text, m: Text, suffix: Text, c: nat)
    requires c < |prefix|
    ensures var text := prefix + m + suffix;
            && c < |text| && text[..c] == prefix[..c] && text[c..] == prefix[c..] + m + suffix
            && text[c] == prefix[c] && Separator(text, c) == Separator(prefix, c) &&
               (c > 0 ==> text[c - 1] == prefix[c - 1])
  {
  }

  lemma {:induction false} AddedTidy(begin: LineTest, end: LineTest, a: Text, sep: Text, b: Text, limits: Text,
                                     suffix: Text, domain: Text)
    requires MarksComments(begin) && MarksComments(end) && '\n' !in domain && domain != []
    requires TidyFor(begin, end, limits, suffix, domain) && TidyFor(begin, end, a + b, suffix, domain)
    requires b != [] && b[0] == '}' && Opens(a) && StateAfter(a) == Lex(1, Normal)
    requires if WholeLines(a) then sep == "" else sep == "\n"
    ensures TidyFor(begin, end, a + sep + limits + b, suffix, domain)
  {
    SidesTidy(begin, end, a, b, suffix, domain);
    assert sep == "" ==> a + sep == a;
    TidyAround(begin, end, a + sep, limits, b, suffix, domain);
  }

  lemma {:induction false} SidesTidy(begin: LineTest, end: LineTest, a: Text, b: Text, suffix: Text, domain: Text)
    requires MarksComments(begin) && MarksComments(end) && '\n' !in domain && domain != []
    requires TidyFor(begin, end, a + b, suffix, domain) && b != [] && b[0] == '}'
    requires Opens(a) && StateAfter(a) == Lex(1, Normal)
    ensures TidyFor(begin, end, b, suffix, domain) && TidyFor(begin, end, a + "\n", suffix, domain)
    ensures WholeLines(a) ==> TidyFor(begin, end, a, suffix, domain)
  {
    AddMarks(begin, a, b);
    AddMarks(end, a, b);
    NotInHalves(a, b, domain);
    if Contains(a + "\n", domain) { ContainsNewline(a, domain); }
    assert b[|b| - 1] == (a + b)[|a + b| - 1];
  }

  /**
   Rendering the output again, with the same site and domain, changes nothing: always when the input had no
   managed limits, and otherwise exactly when the global block stands alone without them.
   */
  lemma {:induction false} RenderIdempotent(alnum: AlnumTest, current: Text, siteText: Text, domain: Text)
    requires AlnumOk(alnum) && CleanDomain(domain)
    requires Render(alnum, current, siteText, domain).Ok?
    requires var p := FindPlace(current, StripBreaks(siteText), domain).value;
             BlockWithin(Placed(p, StripBreaks(siteText)), p.prefix)
    ensures var out := Render(alnum, current, siteText, domain).value;
            var placed := Placed(FindPlace(current, StripBreaks(siteText), domain).value, StripBreaks(siteText));
            Render(alnum, out, siteText, domain) == Ok(out) <==>
            KeepsItsBlock(alnum, Mark(LimitsBegin), Mark(LimitsEnd), placed)
  {
    var site := StripBreaks(siteText);
    var p := FindPlace(current, site, domain).value;
    PlacesTidy(current, site, domain);
    LimitsAreHarmless(domain);
    var prefix := RendersAgain(alnum, Mark(LimitsBegin), Mark(LimitsEnd), Mark(SiteBegin), Mark(SiteEnd),
                               Placed(p, site), p.prefix, Wrapped(site), p.suffix, Limits(),
                               |IndentedMarker(LimitsBegin)|, |IndentedMarker(LimitsEnd)|, domain);
    RenderPlaced(alnum, Places(prefix, p.suffix), siteText, domain);
  }

  /** A text with the site in its place goes straight to the limits. */
  lemma {:induction false} RenderPlaced(alnum: AlnumTest, p: Places, siteText: Text, domain: Text)
    requires CheckSite(siteText, domain).None? && Tidy(p.prefix, p.suffix, domain)
    ensures Render(alnum, Placed(p, StripBreaks(siteText)), siteText, domain) ==
            RenderGlobalLimits(alnum, Placed(p, StripBreaks(siteText)))
  {
    FindPlaceAgain(p, StripBreaks(siteText), domain);
  }

  lemma {:induction false} RendersAgain(alnum: AlnumTest, begin: LineTest, end: LineTest, sb: LineTest, se: LineTest,
                                        text: Text, prefix: Text, m: Text, suffix: Text, limits: Text, first: nat,
                                        last: nat, domain: Text)
    returns (prefix': Text)
    requires AlnumOk(alnum) && Harmless(begin, end, sb, se, limits, first, last, domain) &&
             TidyFor(sb, se, prefix, suffix, domain)
    requires text == prefix + m + suffix && m != [] && BlockWithin(text, prefix)
    requires RenderWith(alnum, begin, end, text, limits).Ok?
    ensures Rerenders(alnum, begin, end, sb, se, text, m, suffix, limits, domain, prefix')
  {
    if LimitsMarked(begin, end, text) {
      prefix' := RenderReplacing(alnum, begin, end, sb, se, text, prefix, m, suffix, limits, first, last, domain);
    } else if GlobalSpan(text).NoBlock? {
      prefix' := RenderIntoNewBlock(alnum, begin, end, sb, se, text, prefix, m, suffix, limits, first, last, domain);
    } else {
      prefix' := RenderIntoBlock(alnum, begin, end, sb, se, text, prefix, m, suffix, limits, first, last, domain);
    }
  }

  /**
   In a file that renders to itself the managed `servers` is the only one, and it counts when it stands at the top
   level.
   */
  lemma {:induction false} FixedPointServers(alnum: AlnumTest, text: Text)
    requires AlnumOk(alnum) && RenderGlobalLimits(alnum, text) == Ok(text)
    requires LimitsMarked(Mark(LimitsBegin), Mark(LimitsEnd), text)
    ensures var i, l := MarksIn(Mark(LimitsBegin), text, 0).start, MarksIn(Mark(LimitsEnd), text, 0).end;
            var span := GlobalSpan(text);
            && i < l <= |text| && span.Block? && span.opening < span.closing < |text| && Opens(text[..i])
            && !HasServers(alnum, Blank(text, i, l), span.opening, span.closing)
            && (HasServers(alnum, text, span.opening, span.closing) <==> StateAfter(text[..i]) == Lex(1, Normal))
  {
    LimitsAreManaged();
    LimitsSeen(alnum);
    FixedPointServersWith(alnum, Mark(LimitsBegin), Mark(LimitsEnd), text, Limits(), |IndentedMarker(LimitsBegin)|,
                          |IndentedMarker(LimitsEnd)|);
  }

  lemma {:induction false} LimitsSeen(alnum: AlnumTest)
    requires AlnumOk(alnum)
    ensures forall a: Text :: Opens(a) && WholeLines(a) ==>
            SeenOrNot(alnum, ScanRun(alnum, IN_BLOCK, a[SkipBlank(a) + 1..]), Limits())
  {
    forall a: Text | Opens(a) && WholeLines(a)
      ensures SeenOrNot(alnum, ScanRun(alnum, IN_BLOCK, a[SkipBlank(a) + 1..]), Limits())
    {
      LimitsSeenOrNot(alnum, a);
    }
  }

  lemma {:induction false} FixedPointServersWith(alnum: AlnumTest, begin: LineTest, end: LineTest, text: Text,
                                                 limits: Text, first: nat, last: nat)
    requires AlnumOk(alnum) && Managed(begin, end, limits, first, last)
    requires RenderWith(alnum, begin, end, text, limits) == Ok(text) && LimitsMarked(begin, end, text)
    requires forall a: Text :: Opens(a) && WholeLines(a) ==>
             SeenOrNot(alnum, ScanRun(alnum, IN_BLOCK, a[SkipBlank(a) + 1..]), limits)
    ensures var i, l := MarksIn(begin, text, 0).start, MarksIn(end, text, 0).end;
            var span := GlobalSpan(text);
            && i < l <= |text| && span.Block? && span.opening < span.closing < |text| && Opens(text[..i])
            && !HasServers(alnum, Blank(text, i, l), span.opening, span.closing)
            && (HasServers(alnum, text, span.opening, span.closing) <==> StateAfter(text[..i]) == Lex(1, Normal))
  {
    var i, l := FixedPointShape(alnum, begin, end, text, limits, first, last);
    FixedPointParts(alnum, begin, end, text, text[..i], limits, first, last, text[l..]);
  }

  lemma {:induction false} FixedPointShape(alnum: AlnumTest, begin: LineTest, end: LineTest, text: Text, limits: Text,
                                           first: nat, last: nat)
    returns (i: nat, l: nat)
    requires AlnumOk(alnum) && Managed(begin, end, limits, first, last)
    requires RenderWith(alnum, begin, end, text, limits) == Ok(text) && LimitsMarked(begin, end, text)
    ensures MarksIn(begin, text, 0).One? && MarksIn(begin, text, 0).start == i && MarksIn(end, text, 0).One? &&
            MarksIn(end, text, 0).end == l
    ensures i < l <= |text| && text == text[..i] + limits + text[l..] && |limits| == l - i
    ensures Opens(text[..i]) && WholeLines(text[..i]) && NoMarks(begin, end, text[..i]) &&
            NoMarks(begin, end, text[l..])
  {
    var j, k;
    i, j, k, l := PairOf(alnum, begin, end, text, limits);
    AroundPair(begin, end, text, i, j, k, l);
    SpanInside(text);
    SpanSplit(text, i);
  }

  lemma {:induction false} FixedPointParts(alnum: AlnumTest, begin: LineTest, end: LineTest, text: Text, a: Text,
                                           limits: Text, first: nat, last: nat, b: Text)
    requires AlnumOk(alnum) && Managed(begin, end, limits, first, last) && Opens(a) && WholeLines(a)
    requires NoMarks(begin, end, a) && NoMarks(begin, end, b) && text == a + limits + b
    requires RenderWith(alnum, begin, end, text, limits).Ok?
    requires SeenOrNot(alnum, ScanRun(alnum, IN_BLOCK, a[SkipBlank(a) + 1..]), limits)
    ensures var span := GlobalSpan(text);
            && span.Block? && span.opening < span.closing < |text|
            && !HasServers(alnum, Blank(text, |a|, |a| + |limits|), span.opening, span.closing)
            && (HasServers(alnum, text, span.opening, span.closing) <==> StateAfter(a) == Lex(1, Normal))
  {
    var k := FixedPointSpan(alnum, begin, end, a, limits, first, last, b);
    BlankMiddle(a, limits, b);
    SpanInside(text);
    FixedPointCount(alnum, text, Blank(text, |a|, |a| + |limits|), a, limits, b, k);
  }

  lemma {:induction false} FixedPointCount(alnum: AlnumTest, text: Text, blank: Text, a: Text, limits: Text, b: Text,
                                           k: nat)
    requires AlnumOk(alnum) && Opens(a) && WholeLines(a) && FindClose(StateAfter(a), b) == Some(k) && k < |b|
    requires Verdict(alnum, a, b).None? && SeenOrNot(alnum, ScanRun(alnum, IN_BLOCK, a[SkipBlank(a) + 1..]), limits)
    requires limits != [] && text == a + limits + b && blank == a + Spaces(|limits|) + b && |blank| == |text|
    requires GlobalSpan(text) == Block(SkipBlank(a), |a| + |limits| + k)
    ensures var span := GlobalSpan(text);
            && span.opening < span.closing < |text|
            && !HasServers(alnum, blank, span.opening, span.closing)
            && (HasServers(alnum, text, span.opening, span.closing) <==> StateAfter(a) == Lex(1, Normal))
  {
    FixedPointSearch(alnum, a, limits, blank, b, k);
  }

  lemma {:induction false} FixedPointSearch(alnum: AlnumTest, a: Text, limits: Text, blank: Text, b: Text, k: nat)
    requires AlnumOk(alnum) && Opens(a) && WholeLines(a) && FindClose(StateAfter(a), b) == Some(k) && k < |b|
    requires Verdict(alnum, a, b).None? && SeenOrNot(alnum, ScanRun(alnum, IN_BLOCK, a[SkipBlank(a) + 1..]), limits)
    requires limits != [] && blank == a + Spaces(|limits|) + b
    ensures |blank| == |a + limits + b| == |a| + |limits| + |b|
    ensures !HasServers(alnum, blank, SkipBlank(a), |a| + |limits| + k)
    ensures HasServers(alnum, a + limits + b, SkipBlank(a), |a| + |limits| + k) <==> StateAfter(a) == Lex(1, Normal)
  {
    BlankedSearch(alnum, a, |limits|, b, k);
    ServersExactFor(alnum, a, limits, b, k);
  }

  lemma {:induction false} FixedPointSpan(alnum: AlnumTest, begin: LineTest, end: LineTest, a: Text, limits: Text,
                                          first: nat, last: nat, b: Text)
    returns (k: nat)
    requires AlnumOk(alnum) && Managed(begin, end, limits, first, last) && Opens(a) && WholeLines(a)
    requires NoMarks(begin, end, a) && NoMarks(begin, end, b)
    requires RenderWith(alnum, begin, end, a + limits + b, limits).Ok?
    ensures FindClose(StateAfter(a), b) == Some(k) && k < |b| && Verdict(alnum, a, b).None?
    ensures GlobalSpan(a + limits + b) == Block(SkipBlank(a), |a| + |limits| + k)
  {
    RenderLimitsAgain(alnum, begin, end, a, limits, first, last, b);
    StateAtLineStart(a);
    SpliceSpan(a, limits, b);
    k := FindClose(StateAfter(a), b).value;
  }

  // ---- What is kept ----

  /** The text without the region between two markers. */
  function Remainder(begin: LineTest, end: LineTest, text: Text): Text {
    var b, e := MarksIn(begin, text, 0), MarksIn(end, text, 0);
    MarkInside(begin, text);
    MarkInside(end, text);
    if b.One? && e.One? && b.start < e.start then text[..b.start] + text[e.end..] else text
  }

  lemma {:induction false} RemainderOf(begin: LineTest, end: LineTest, a: Text, limits: Text, first: nat, last: nat,
                                       b: Text)
    requires Managed(begin, end, limits, first, last) && WholeLines(a) && NoMarks(begin, end, a) &&
             NoMarks(begin, end, b)
    ensures Remainder(begin, end, a + limits + b) == a + b
  {
    MarksWithLimits(begin, end, a, limits, first, last, b);
    BlankMiddle(a, limits, b);
  }

  /** What the rendering of the limits leaves outside them: the old text, or the old text with separators. */
  function Kept(text: Text): Text {
    SpanInside(text);
    if LimitsMarked(Mark(LimitsBegin), Mark(LimitsEnd), text) then Remainder(Mark(LimitsBegin), Mark(LimitsEnd), text)
    else
      match GlobalSpan(text)
      case Block(_, closing) => text[..closing] + Separator(text, closing) + text[closing..]
      case _ => "{\n" + "}\n\n" + text
  }

  lemma {:induction false} LimitsKeepTheRemainder(alnum: AlnumTest, text: Text)
    requires AlnumOk(alnum) && RenderGlobalLimits(alnum, text).Ok?
    requires GlobalSpan(text).Block? && 0 < GlobalSpan(text).closing <= |text| ==>
             text[GlobalSpan(text).closing - 1] != '\r'
    ensures Remainder(Mark(LimitsBegin), Mark(LimitsEnd), RenderGlobalLimits(alnum, text).value) == Kept(text)
  {
    LimitsAreManaged();
    SpanInside(text);
    RestIsKept(alnum, Mark(LimitsBegin), Mark(LimitsEnd), text, Limits(), |IndentedMarker(LimitsBegin)|,
               |IndentedMarker(LimitsEnd)|);
  }

  lemma {:induction false} RestIsKept(alnum: AlnumTest, begin: LineTest, end: LineTest, text: Text, limits: Text,
                                      first: nat, last: nat)
    requires AlnumOk(alnum) && Managed(begin, end, limits, first, last) &&
             RenderWith(alnum, begin, end, text, limits).Ok?
    requires GlobalSpan(text).Block? ==> GlobalSpan(text).opening < GlobalSpan(text).closing < |text|
    requires GlobalSpan(text).Block? ==> text[GlobalSpan(text).closing - 1] != '\r'
    ensures Remainder(begin, end, RenderWith(alnum, begin, end, text, limits).value) ==
            if LimitsMarked(begin, end, text) then Remainder(begin, end, text)
            else if GlobalSpan(text).Block? then
              text[..GlobalSpan(text).closing] + Separator(text, GlobalSpan(text).closing) +
              text[GlobalSpan(text).closing..]
            else "{\n" + "}\n\n" + text
  {
    if LimitsMarked(begin, end, text) {
      var i, j, k, l := PairOf(alnum, begin, end, text, limits);
      AroundPair(begin, end, text, i, j, k, l);
      ReplacedKeeps(alnum, begin, end, text, limits, first, last, i, j, k, l);
      RemainderOf(begin, end, text[..i], limits, first, last, text[l..]);
    } else if GlobalSpan(text).Block? {
      var c := GlobalSpan(text).closing;
      SpanSplit(text, c);
      ClosesNow(StateAfter(text[..c]), text[c..]);
      assert text[..c] + text[c..] == text;
      AddMarks(begin, text[..c], text[c..]);
      AddMarks(end, text[..c], text[c..]);
      var a := text[..c] + Separator(text, c);
      if Separator(text, c) == "" { assert a == text[..c]; }
      RemainderOf(begin, end, a, limits, first, last, text[c..]);
    } else {
      NewBlockMarks(begin, text);
      NewBlockMarks(end, text);
      RemainderOf(begin, end, "{\n", limits, first, last, "}\n\n" + text);
      assert "{\n" + limits + ("}\n\n" + text) == "{\n" + limits + "}\n\n" + text;
      assert "{\n" + ("}\n\n" + text) == "{\n" + "}\n\n" + text;
    }
  }

  /** Placing the site keeps what is outside it: of a marked file exactly, of an unmarked one with separators. */
  lemma {:induction false} SiteKeepsTheRemainder(current: Text, site: Text, domain: Text)
    requires CleanDomain(domain) && SiteOk(site) && FindPlace(current, site, domain).Ok?
    ensures Remainder(Mark(SiteBegin), Mark(SiteEnd), Placed(FindPlace(current, site, domain).value, site))
         == if LimitsMarked(Mark(SiteBegin), Mark(SiteEnd), current)
         then Remainder(Mark(SiteBegin), Mark(SiteEnd), current)
            else if RStripBreaks(current) == RStripBreaks(site) then []
            else Base(current)
  {
    var p := FindPlace(current, site, domain).value;
    PlacesTidy(current, site, domain);
    WrappedMarks(site, SiteBegin, |p.prefix|);
    WrappedMarks(site, SiteEnd, |p.prefix|);
    OnlyMarkInMiddle(Mark(SiteBegin), p.prefix, Wrapped(site), p.suffix);
    OnlyMarkInMiddle(Mark(SiteEnd), p.prefix, Wrapped(site), p.suffix);
    CutPlaced(p.prefix, Wrapped(site), p.suffix);
    assert Base(current) + [] == Base(current);
  }
}
