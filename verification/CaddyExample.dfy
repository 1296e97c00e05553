/**
 A Caddyfile whose managed region opens a block that the rest of the file closes. Rendering it succeeds, and
 rendering the output is refused: replacing the region takes the open brace away, and the `servers` that
 was nested comes to stand at the top level.
 */
module CaddyExample {
  import opened Common
  import opened CaddyText
  import opened CaddyLexer
  import opened CaddyLimits
  import opened CaddyMerge

  const HEAD: Text := "{\n"
  const OPEN: Text := "{\n"
  const CLOSE: Text := "}\n"

  function Tail(): Text {
    SERVERS + (CLOSE + CLOSE)
  }

  /** What the proof uses of the text behind the region. */
  ghost predicate ClosesTwice(alnum: AlnumTest, tail: Text) {
    && |tail| > 9
    && FindClose(Lex(1, Normal), tail) == Some(7) && FindClose(Lex(2, Normal), tail) == Some(9)
    && Hit(ScanRun(alnum, IN_BLOCK, tail[..7])) && !Hit(ScanRun(alnum, IN_BLOCK, tail[..9]))
  }

  /** And of the text in front of it. */
  ghost predicate StartsBlock(alnum: AlnumTest, head: Text) {
    && head != [] && WholeLines(head) && '#' !in head
    && Opens(head) && SkipBlank(head) == 0 && StateAfter(head) == Lex(1, Normal) && ScanAfter(alnum, head) == IN_BLOCK
  }

  lemma {:induction false} CloseLexes(d: int)
    requires d >= 2
    ensures FindClose(Lex(1, Normal), CLOSE + CLOSE) == Some(0)
    ensures FindClose(Lex(d, Normal), CLOSE).None? && LexRun(Lex(d, Normal), CLOSE) == Lex(d - 1, Normal)
    ensures FindClose(Lex(1, Normal), CLOSE) == Some(0)
  {
    assert CLOSE[1..] == ['\n'] && CLOSE[1..][1..] == [];
  }

  lemma {:induction false} TailLexes()
    ensures FindClose(Lex(1, Normal), Tail()) == Some(7) && FindClose(Lex(2, Normal), Tail()) == Some(9)
  {
    var word, rest: Text := SERVERS, CLOSE + CLOSE;
    assert Plain(word) && |word| == 7;
    WordLexes(word, rest);
    CloseLexes(2);
    CloseConcat(Lex(2, Normal), CLOSE, CLOSE);
    assert FindClose(Lex(2, Normal), rest) == Some(2);
  }

  lemma {:induction false} WordLexes(word: Text, rest: Text)
    requires Plain(word)
    ensures Rest(FindClose(Lex(1, Normal), word + rest), |word|, FindClose(Lex(1, Normal), rest))
    ensures Rest(FindClose(Lex(2, Normal), word + rest), |word|, FindClose(Lex(2, Normal), rest))
  {
    PlainNeutral(Lex(1, Normal), word);
    PlainNeutral(Lex(2, Normal), word);
    AboveNeverCloses(Lex(1, Normal), word);
    AboveLower(2, 1, Lex(2, Normal), word);
    AboveNeverCloses(Lex(2, Normal), word);
    CloseConcat(Lex(1, Normal), word, rest);
    CloseConcat(Lex(2, Normal), word, rest);
  }

  lemma {:induction false} CloseScans(alnum: AlnumTest, word: Text)
    ensures ScanRun(alnum, Scan(Lex(1, Normal), word, true), CLOSE) == Scan(Lex(0, Normal), [], true)
  {
    var e := Scan(Lex(1, Normal), word, true);
    assert CLOSE == ['}'] + ['\n'];
    ScanConcat(alnum, e, ['}'], ['\n']);
    OneChar(alnum, e, '}');
    OneChar(alnum, Scan(Lex(0, Normal), [], true), '\n');
  }

  lemma {:induction false} TailParts()
    ensures |SERVERS| == 7 && |CLOSE| == 2 && '#' !in SERVERS && '#' !in CLOSE
  {
  }

  lemma {:induction false} TailScans(alnum: AlnumTest, word: Text, close: Text)
    requires Word(alnum, word) && word == SERVERS && close == CLOSE
    ensures Hit(ScanRun(alnum, IN_BLOCK, word)) && !Hit(ScanRun(alnum, IN_BLOCK, word + close))
  {
    TokenScan(alnum, IN_BLOCK, word);
    assert IN_BLOCK.token + word == word;
    CloseScans(alnum, word);
    ScanConcat(alnum, IN_BLOCK, word, close);
  }

  lemma {:induction false} TailSlices(word: Text, close: Text)
    requires |word| == 7 && |close| == 2
    ensures |word + (close + close)| == 11 && (word + (close + close))[..7] == word &&
            (word + (close + close))[..9] == word + close
  {
  }

  /** Whatever follows the two closing lines. */
  lemma {:induction false} TailCloses(alnum: AlnumTest, more: Text)
    requires AlnumOk(alnum)
    ensures ClosesTwice(alnum, Tail() + more)
  {
    TailParts();
    ServersIsToken(alnum);
    TailScans(alnum, SERVERS, CLOSE);
    TailSlices(SERVERS, CLOSE);
    TailLexes();
    CloseConcat(Lex(1, Normal), Tail(), more);
    CloseConcat(Lex(2, Normal), Tail(), more);
    LongerSlices(Tail(), more);
  }

  lemma {:induction false} LongerSlices(tail: Text, more: Text)
    requires |tail| == 11
    ensures (tail + more)[..7] == tail[..7] && (tail + more)[..9] == tail[..9]
  {
  }

  lemma {:induction false} HeadStarts(alnum: AlnumTest)
    requires AlnumOk(alnum)
    ensures StartsBlock(alnum, HEAD)
  {
    OpenLine();
    ScanAfterOpenLine(alnum);
  }

  lemma {:induction false} RegionLexes(first: Text, last: Text)
    requires Neutral(Lex(1, Normal), first) && Neutral(Lex(2, Normal), last)
    ensures FindClose(Lex(1, Normal), first + OPEN + last).None? &&
            LexRun(Lex(1, Normal), first + OPEN + last) == Lex(2, Normal)
  {
    assert OPEN[1..] == ['\n'] && OPEN[1..][1..] == [];
    assert LexRun(Lex(1, Normal), OPEN) == Lex(2, Normal) && Above(1, Lex(1, Normal), OPEN);
    RunConcat(Lex(1, Normal), first, OPEN);
    AboveConcat(1, Lex(1, Normal), first, OPEN);
    RunConcat(Lex(1, Normal), first + OPEN, last);
    AboveLower(2, 1, Lex(2, Normal), last);
    AboveConcat(1, Lex(1, Normal), first + OPEN, last);
    AboveNeverCloses(Lex(1, Normal), first + OPEN + last);
  }

  /** The block closes only at the second brace of the tail. */
  lemma {:induction false} RegionCloses(alnum: AlnumTest, head: Text, region: Text, tail: Text)
    requires StartsBlock(alnum, head) && ClosesTwice(alnum, tail)
    requires FindClose(Lex(1, Normal), region).None? && LexRun(Lex(1, Normal), region) == Lex(2, Normal)
    ensures GlobalSpan(head + region + tail) == Block(0, |head| + |region| + 9)
  {
    SkipPrefix(head, region);
    assert (head + region)[0..] == head[0..] + region;
    CloseConcat(OUTSIDE, head[0..], region);
    RunConcat(OUTSIDE, head[0..], region);
    SpanOf(head + region, tail);
  }

  lemma {:induction false} RegionMarks(test: LineTest, head: Text, first: Text, open: Text, last: Text, tail: Text)
    requires MarksComments(test) && '#' !in head && '#' !in open && Unmarked(test, tail) && WholeLines(head) &&
             WholeLines(open)
    requires Split(first) == Line(first, End) && WholeLines(first) && Split(last) == Line(last, End) &&
             WholeLines(last) && last != []
    requires test(first) <==> !test(last)
    ensures MarksIn(test, head + (first + open + last) + tail, 0)
         == if test(first) then One(|head|, |head| + |first|)
            else One(|head| + |first + open|, |head| + |first + open| + |last|)
  {
    NoHashUnmarked(test, head);
    NoHashUnmarked(test, open);
    ThreeParts(test, first, open, last, |head|);
    OnlyMarkInMiddle(test, head, first + open + last, tail);
  }

  lemma {:induction false} RegionRenders(alnum: AlnumTest, begin: LineTest, end: LineTest, text: Text, limits: Text,
        head: Text, region: Text, tail: Text, j: nat, k: nat)
    requires AlnumOk(alnum) && StartsBlock(alnum, head) && ClosesTwice(alnum, tail)
    requires text == head + region + tail && |head| < k < |head| + |region|
    requires FindClose(Lex(1, Normal), region).None? && LexRun(Lex(1, Normal), region) == Lex(2, Normal)
    requires MarksIn(begin, text, 0) == One(|head|, j) && MarksIn(end, text, 0) == One(k, |head| + |region|)
    ensures RenderWith(alnum, begin, end, text, limits) == Ok(head + limits + tail)
  {
    RenderOver(alnum, begin, end, text, limits, |head|, j, k, |head| + |region|);
    RegionCloses(alnum, head, region, tail);
    BlankedSearch(alnum, head, |region|, tail, 9);
    BlankMiddle(head, region, tail);
    ReplaceKnown(alnum, text, head + Spaces(|region|) + tail, limits, |head|, k, |head| + |region|, 0,
                 |head| + |region| + 9, head, tail);
  }

  lemma {:induction false} OutputRefused(alnum: AlnumTest, begin: LineTest, end: LineTest, head: Text, limits: Text,
                                         first: nat, last: nat, tail: Text)
    requires AlnumOk(alnum) && Managed(begin, end, limits, first, last) && StartsBlock(alnum, head) &&
             ClosesTwice(alnum, tail)
    requires NoMarks(begin, end, tail)
    ensures RenderWith(alnum, begin, end, head + limits + tail, limits) == Err(UnmanagedServers)
  {
    NoHashUnmarked(begin, head);
    NoHashUnmarked(end, head);
    RenderLimitsAgain(alnum, begin, end, head, limits, first, last, tail);
  }

  function OpenRegion(): Text {
    IndentedMarker(LimitsBegin) + OPEN + IndentedMarker(LimitsEnd)
  }

  /** The limits step succeeds on such a file and is refused on its output, whatever unmarked text follows. */
  lemma {:induction false} OpenRegionLimits(alnum: AlnumTest, more: Text)
    requires AlnumOk(alnum) && NoMarks(Mark(LimitsBegin), Mark(LimitsEnd), Tail() + more)
    ensures RenderGlobalLimits(alnum, HEAD + OpenRegion() + (Tail() + more)) == Ok(HEAD + Limits() + (Tail() + more))
    ensures RenderGlobalLimits(alnum, HEAD + Limits() + (Tail() + more)) == Err(UnmanagedServers)
  {
    HeadStarts(alnum);
    TailCloses(alnum, more);
    OpenRegionRenders(alnum, HEAD, Tail() + more);
    LimitsAreManaged();
    OutputRefused(alnum, Mark(LimitsBegin), Mark(LimitsEnd), HEAD, Limits(), |IndentedMarker(LimitsBegin)|,
                  |IndentedMarker(LimitsEnd)|, Tail() + more);
  }

  // ---- The whole render, with a site ----

  lemma {:induction false} SiteMarkIsNoLimit(kind: Kind, other: Kind)
    requires kind.OfSite() && !other.OfSite()
    ensures WholeLines(MarkerLine(kind)) && Unmarked(Mark(other), MarkerLine(kind))
  {
    MarkerAlone(kind, kind);
    MarkerEnds(kind);
    RStripNewline(kind.Marker());
    LastChars(kind, other);
    LineMarks(Mark(other), MarkerLine(kind), 0);
  }

  lemma {:induction false} LastChars(kind: Kind, other: Kind)
    requires kind.OfSite() && !other.OfSite()
    ensures kind.Marker() != other.Marker()
  {
    MarkerEnds(kind);
    MarkerEnds(other);
    assert SITE[|SITE| - 1] == 'e' && SERVER_LIMITS[|SERVER_LIMITS| - 1] == 's';
    assert kind.Marker()[|kind.Marker()| - 1] == 'e' && other.Marker()[|other.Marker()| - 1] == 's';
  }

  /** A site without limits markers has none in its place either. */
  lemma {:induction false} WrappedHasNoLimits(site: Text, kind: Kind)
    requires !kind.OfSite() && Unmarked(Mark(kind), site)
    ensures Unmarked(Mark(kind), Tail() + Wrapped(site))
  {
    SiteMarkIsNoLimit(SiteBegin, kind);
    SiteMarkIsNoLimit(SiteEnd, kind);
    UnmarkedNewline(kind, site);
    MarkIsComment(kind);
    TailParts();
    var tail := Tail();
    assert '#' !in tail && WholeLines(tail);
    NoHashUnmarked(Mark(kind), tail);
    FourParts(Mark(kind), tail, MarkerLine(SiteBegin), site + "\n", MarkerLine(SiteEnd));
  }

  lemma {:induction false} FourParts(test: LineTest, tail: Text, first: Text, middle: Text, last: Text)
    requires WholeLines(tail) && WholeLines(first) && WholeLines(middle) && WholeLines(last)
    requires Unmarked(test, tail) && Unmarked(test, first) && Unmarked(test, middle) && Unmarked(test, last)
    ensures Unmarked(test, tail + (first + middle + last))
  {
    UnmarkedConcat(test, first, middle);
    assert WholeLines(first + middle);
    UnmarkedConcat(test, first + middle, last);
    UnmarkedConcat(test, tail, first + middle + last);
  }

  /** The example with its site in place, before and after the region is replaced. */
  function Before(): Text {
    HEAD + OpenRegion() + Tail()
  }

  function Replaced(): Text {
    HEAD + Limits() + Tail()
  }

  lemma {:induction false} ReplacedIsTidy(domain: Text)
    requires CleanDomain(domain) && !Contains(Before(), domain)
    ensures Tidy(Replaced(), [], domain)
  {
    CleanIsNotEmpty(domain);
    LimitsTidy(domain);
    LimitsWithoutSite(SiteBegin);
    LimitsWithoutSite(SiteEnd);
    var head, tail := HEAD, Tail();
    ExampleParts(head, tail);
    TailFree(head + OpenRegion(), tail, domain);
    MarkIsComment(SiteBegin);
    MarkIsComment(SiteEnd);
    PartsTidy(Mark(SiteBegin), Mark(SiteEnd), head, Limits(), tail, domain);
  }

  lemma {:induction false} TailFree(a: Text, b: Text, domain: Text)
    requires !Contains(a + b, domain)
    ensures !Contains(b, domain)
  {
    assert a + b + [] == a + b;
    NotInPart(a, b, [], domain);
  }

  lemma {:induction false} ExampleParts(head: Text, tail: Text)
    requires head == HEAD && tail == Tail()
    ensures WholeLines(head) && '#' !in head && head == "{\n" && WholeLines(tail) && tail != [] && '#' !in tail
  {
    TailParts();
  }

  lemma {:induction false} PartsUnmarked(test: LineTest, head: Text, middle: Text, tail: Text)
    requires MarksComments(test) && WholeLines(head) && WholeLines(middle) && '#' !in head && '#' !in tail &&
             Unmarked(test, middle)
    ensures Unmarked(test, head + middle + tail)
  {
    NoHashUnmarked(test, head);
    NoHashUnmarked(test, tail);
    UnmarkedConcat(test, head, middle);
    UnmarkedConcat(test, head + middle, tail);
  }

  lemma {:induction false} PartsTidy(begin: LineTest, end: LineTest, head: Text, middle: Text, tail: Text, domain: Text)
    requires '\n' !in domain && domain != [] && WholeLines(head) && WholeLines(middle) && WholeLines(tail) && tail != []
    requires MarksComments(begin) && MarksComments(end) && '#' !in head && '#' !in tail && NoMarks(begin, end, middle)
    requires !Contains(head, domain) && !Contains(middle, domain) && !Contains(tail, domain)
    ensures TidyFor(begin, end, head + middle + tail, [], domain)
  {
    PartsUnmarked(begin, head, middle, tail);
    PartsUnmarked(end, head, middle, tail);
    NotInParts(head, middle, domain);
    NotInParts(head + middle, tail, domain);
    assert !Contains([], domain);
  }

  lemma {:induction false} BeforeIsTidy(domain: Text)
    requires CleanDomain(domain) && !Contains(Before(), domain)
    ensures Tidy(Before(), [], domain)
  {
    CleanIsNotEmpty(domain);
    var head, tail := HEAD, Tail();
    ExampleParts(head, tail);
    TailFree(head + OpenRegion(), tail, domain);
    RegionFree(head, OpenRegion(), tail, domain);
    RegionWithoutSite(SiteBegin);
    RegionWithoutSite(SiteEnd);
    MarkIsComment(SiteBegin);
    MarkIsComment(SiteEnd);
    PartsTidy(Mark(SiteBegin), Mark(SiteEnd), head, OpenRegion(), tail, domain);
  }

  lemma {:induction false} RegionFree(a: Text, b: Text, c: Text, domain: Text)
    requires !Contains(a + b + c, domain)
    ensures !Contains(a, domain) && !Contains(b, domain)
  {
    NotInPart(a, b, c, domain);
    assert [] + a + (b + c) == a + b + c;
    NotInPart([], a, b + c, domain);
  }

  lemma {:induction false} RegionWithoutSite(kind: Kind)
    requires kind.OfSite()
    ensures WholeLines(OpenRegion()) && Unmarked(Mark(kind), OpenRegion())
  {
    IndentedLine(LimitsBegin);
    IndentedLine(LimitsEnd);
    IndentedIsMark(LimitsBegin, kind);
    IndentedIsMark(LimitsEnd, kind);
    MarkIsComment(kind);
    assert '#' !in OPEN && WholeLines(OPEN);
    NoHashUnmarked(Mark(kind), OPEN);
    ThreeParts(Mark(kind), IndentedMarker(LimitsBegin), OPEN, IndentedMarker(LimitsEnd), 0);
  }

  /**
   For every site and domain that the merge accepts, with no limits marker in the site and no mention of the
   domain before it, rendering the file with the open region succeeds, and rendering the output is refused.
   */
  lemma {:induction false} OpenRegionBreaks(alnum: AlnumTest, siteText: Text, domain: Text)
    requires AlnumOk(alnum) && CleanDomain(domain) && CheckSite(siteText, domain).None? && !Contains(Before(), domain)
    requires NoMarks(Mark(LimitsBegin), Mark(LimitsEnd), StripBreaks(siteText))
    ensures var site := Wrapped(StripBreaks(siteText));
            && Render(alnum, Before() + site, siteText, domain) == Ok(Replaced() + site)
            && Render(alnum, Replaced() + site, siteText, domain) == Err(UnmanagedServers)
  {
    var site := Wrapped(StripBreaks(siteText));
    BeforeIsTidy(domain);
    ReplacedIsTidy(domain);
    RenderPlaced(alnum, Places(Before(), []), siteText, domain);
    RenderPlaced(alnum, Places(Replaced(), []), siteText, domain);
    WrappedHasNoLimits(StripBreaks(siteText), LimitsBegin);
    WrappedHasNoLimits(StripBreaks(siteText), LimitsEnd);
    OpenRegionLimits(alnum, site);
    LastPart(HEAD, OpenRegion(), Tail(), site);
    LastPart(HEAD, Limits(), Tail(), site);
  }

  lemma {:induction false} LastPart(a: Text, b: Text, c: Text, d: Text)
    ensures a + b + c + d + [] == a + b + c + d == a + b + (c + d)
  {
  }

  lemma {:induction false} OpenRegionRenders(alnum: AlnumTest, head: Text, tail: Text)
    requires AlnumOk(alnum) && StartsBlock(alnum, head) && ClosesTwice(alnum, tail) &&
             NoMarks(Mark(LimitsBegin), Mark(LimitsEnd), tail)
    ensures RenderGlobalLimits(alnum, head + OpenRegion() + tail) == Ok(head + Limits() + tail)
  {
    IndentedLine(LimitsBegin);
    IndentedLine(LimitsEnd);
    IndentedIsMark(LimitsBegin, LimitsBegin);
    IndentedIsMark(LimitsBegin, LimitsEnd);
    IndentedIsMark(LimitsEnd, LimitsBegin);
    IndentedIsMark(LimitsEnd, LimitsEnd);
    MarkIsComment(LimitsBegin);
    MarkIsComment(LimitsEnd);
    MarkerLineNeutral(Lex(1, Normal), LimitsBegin);
    MarkerLineNeutral(Lex(2, Normal), LimitsEnd);
    RendersFrom(alnum, Mark(LimitsBegin), Mark(LimitsEnd), head, IndentedMarker(LimitsBegin),
                IndentedMarker(LimitsEnd), Limits(), tail);
  }

  lemma {:induction false} RendersFrom(alnum: AlnumTest, begin: LineTest, end: LineTest, head: Text, first: Text,
                                       last: Text, limits: Text, tail: Text)
    requires AlnumOk(alnum) && StartsBlock(alnum, head) && ClosesTwice(alnum, tail) && MarksComments(begin) &&
             MarksComments(end)
    requires NoMarks(begin, end, tail)
    requires Split(first) == Line(first, End) && WholeLines(first) && first != []
    requires Split(last) == Line(last, End) && WholeLines(last) && last != []
    requires begin(first) && !begin(last) && end(last) && !end(first)
    requires Neutral(Lex(1, Normal), first) && Neutral(Lex(2, Normal), last)
    ensures RenderWith(alnum, begin, end, head + (first + OPEN + last) + tail, limits) == Ok(head + limits + tail)
  {
    RegionLexes(first, last);
    assert '#' !in OPEN;
    RegionMarks(begin, head, first, OPEN, last, tail);
    RegionMarks(end, head, first, OPEN, last, tail);
    var region := first + OPEN + last;
    RegionRenders(alnum, begin, end, head + region + tail, limits, head, region, tail, |head| + |first|,
                  |head| + |first + OPEN|);
  }
}
