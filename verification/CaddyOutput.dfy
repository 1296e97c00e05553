/**
 The merged file seen from outside: when a merge is refused, by counting marker lines and looking at
 what stands where, and the exact text it writes otherwise.
 */
module CaddyOutput {
  import opened Common
  import opened CaddyText
  import opened CaddyLexer
  import opened CaddyLimits
  import opened CaddyMerge

  // ----- marker lines -----

  function Count(test: LineTest, lines: Lines): nat {
    match lines
    case End => 0
    case Line(text, rest) => (if test(text) then 1 else 0) + Count(test, rest)
  }

  /** How many marker lines of this kind the text has. */
  function Markers(kind: Kind, text: Text): nat {
    Count(Mark(kind), Split(text))
  }

  lemma {:induction false} FindCounts(test: LineTest, lines: Lines, offset: nat)
    ensures Find(test, lines, offset).NoMark? <==> Count(test, lines) == 0
    ensures Find(test, lines, offset).One? <==> Count(test, lines) == 1
  {
    if lines.Line? {
      FindCounts(test, lines.rest, offset + |lines.text|);
    }
  }

  /** A line of the text, with its newline if it has one. */
  predicate LineAt(text: Text, start: nat, end: nat) {
    && start < end <= |text| && WholeLines(text[..start]) && '\n' !in text[start..end - 1]
    && (text[end - 1] == '\n' || end == |text|)
  }

  lemma {:induction false} SplitFirst(s: Text)
    requires s != []
    ensures var lines := Split(s);
            && lines.Line? && LineAt(s, 0, |lines.text|) && lines.text == s[..|lines.text|]
            && lines.rest == Split(s[|lines.text|..])
  {
    var more := Split(s[1..]);
    if s[0] == '\n' || more.End? {
      assert s[..1] == [s[0]] && s[..0] == [];
    } else {
      SplitFirst(s[1..]);
      var n := |more.text|;
      assert s[1..][..n] == s[1..n + 1] && s[1..][n..] == s[n + 1..] && s[..n + 1] == [s[0]] + s[1..n + 1];
      assert s[0..n] == [s[0]] + s[1..][0..n - 1];
    }
  }

  ghost predicate FindsLine(test: LineTest, text: Text, m: Marks) {
    m.One? ==> LineAt(text, m.start, m.end) && test(text[m.start..m.end])
  }

  lemma {:induction false} FindFirst(test: LineTest, text: Text, offset: nat) returns (n: nat)
    requires offset < |text| && WholeLines(text[..offset])
    ensures 0 < n <= |text| - offset && LineAt(text, offset, offset + n)
    ensures offset + n < |text| ==> WholeLines(text[..offset + n])
    ensures Find(test, Split(text[offset..]), offset) ==
            (if test(text[offset..offset + n]) then One(offset, offset + n) else NoMark)
            .Join(Find(test, Split(text[offset + n..]), offset + n))
  {
    SplitFirst(text[offset..]);
    n := |Split(text[offset..]).text|;
    LineThere(text, offset, n);
  }

  lemma {:induction false} FindIsLine(test: LineTest, text: Text, offset: nat)
    requires offset <= |text| && WholeLines(text[..offset])
    ensures FindsLine(test, text, Find(test, Split(text[offset..]), offset))
    decreases |text| - offset
  {
    if offset < |text| {
      var n := FindFirst(test, text, offset);
      if offset + n < |text| {
        FindIsLine(test, text, offset + n);
      } else {
        assert text[offset + n..] == [];
      }
    }
  }

  lemma LineThere(text: Text, offset: nat, n: nat)
    requires offset <= |text| && WholeLines(text[..offset]) && LineAt(text[offset..], 0, n)
    ensures LineAt(text, offset, offset + n)
    ensures text[offset..offset + n] == text[offset..][..n] && text[offset + n..] == text[offset..][n..]
    ensures offset + n < |text| ==> WholeLines(text[..offset + n])
  {
    var s := text[offset..];
    assert text[offset..offset + n - 1] == s[0..n - 1];
    assert text[..offset + n][offset + n - 1] == s[n - 1];
  }

  /** The one marker line is where it is found. */
  lemma MarkerIsFound(kind: Kind, text: Text)
    ensures var m := MarksIn(Mark(kind), text, 0);
            && (Markers(kind, text) == 0 <==> m.NoMark?)
            && (Markers(kind, text) == 1 <==> m.One?)
            && (m.One? ==> LineAt(text, m.start, m.end) && IsMark(kind, text[m.start..m.end]))
  {
    FindCounts(Mark(kind), Split(text), 0);
    assert text[0..] == text && text[..0] == [];
    FindIsLine(Mark(kind), text, 0);
  }

  /** The only marker line of its kind stands here. */
  ghost predicate StandsAt(kind: Kind, text: Text, start: nat, end: nat) {
    Markers(kind, text) == 1 && LineAt(text, start, end) && IsMark(kind, text[start..end])
  }

  lemma {:induction false} LineIsSplit(line: Text)
    requires LineAt(line, 0, |line|)
    ensures Split(line) == Line(line, End)
  {
    assert line[0..|line| - 1] == line[..|line| - 1];
    forall i | 0 <= i < |line| - 1
      ensures line[i] != '\n'
    {
      assert line[..|line| - 1][i] == line[i];
    }
    OneLine(line);
  }

  lemma {:induction false} LineMarks(test: LineTest, line: Text, offset: nat)
    requires LineAt(line, 0, |line|) && test(line)
    ensures MarksIn(test, line, offset) == One(offset, offset + |line|)
  {
    LineIsSplit(line);
    assert Find(test, End, offset + |line|) == NoMark;
  }

  lemma {:induction false} LineThenRest(test: LineTest, line: Text, rest: Text, start: nat, end: nat)
    requires LineAt(line, 0, |line|) && test(line) && (WholeLines(line) || rest == []) && end == start + |line|
    ensures MarksIn(test, line + rest, start) == One(start, end).Join(MarksIn(test, rest, end))
  {
    LineMarks(test, line, start);
    if rest == [] {
      assert line + rest == line;
    } else {
      MarksConcat(test, line, rest, start, end);
    }
  }

  lemma {:induction false} LineCut(test: LineTest, text: Text, start: nat, end: nat)
    requires LineAt(text, start, end) && test(text[start..end])
    ensures MarksIn(test, text, 0) ==
            MarksIn(test, text[..start], 0).Join(One(start, end).Join(MarksIn(test, text[end..], end)))
  {
    LineAlone(text, start, end);
    LineThenRest(test, text[start..end], text[end..], start, end);
    assert text == text[..start] + (text[start..end] + text[end..]);
    MarksConcat(test, text[..start], text[start..end] + text[end..], 0, start);
  }

  lemma LineAlone(text: Text, start: nat, end: nat)
    requires LineAt(text, start, end)
    ensures LineAt(text[start..end], 0, end - start) && (WholeLines(text[start..end]) || text[end..] == [])
  {
    var line := text[start..end];
    assert line[0..|line| - 1] == text[start..end - 1] && line[..0] == [] && line[|line| - 1] == text[end - 1];
  }

  lemma StandsExactly(kind: Kind, text: Text, start: nat, end: nat)
    ensures StandsAt(kind, text, start, end) <==> MarksIn(Mark(kind), text, 0) == One(start, end)
  {
    MarkerIsFound(kind, text);
    if StandsAt(kind, text, start, end) {
      LineCut(Mark(kind), text, start, end);
    }
  }

  predicate Once(begin: Kind, end: Kind, text: Text) {
    Markers(begin, text) == 1 && Markers(end, text) == 1
  }

  predicate Never(begin: Kind, end: Kind, text: Text) {
    Markers(begin, text) == 0 && Markers(end, text) == 0
  }

  // ----- the limits -----

  lemma {:induction false} SpacesAre(n: nat)
    ensures |Spaces(n)| == n && forall i :: 0 <= i < n ==> Spaces(n)[i] == ' '
  {
    if n > 0 {
      SpacesAre(n - 1);
    }
  }

  /** Anything but one pair of markers, or none, is refused. */
  lemma LimitsUnpaired(alnum: AlnumTest, text: Text)
    ensures RenderGlobalLimits(alnum, text) == Err(LimitsPair) <==>
            !Once(LimitsBegin, LimitsEnd, text) && !Never(LimitsBegin, LimitsEnd, text)
  {
    MarkerIsFound(LimitsBegin, text);
    MarkerIsFound(LimitsEnd, text);
  }

  /** Without markers the limits are put at the end of the block, or in front of the file in a block of their own. */
  lemma LimitsAdded(alnum: AlnumTest, text: Text)
    requires Never(LimitsBegin, LimitsEnd, text)
    ensures var r := RenderGlobalLimits(alnum, text);
            match GlobalSpan(text)
            case NoBlock => r == Ok("{\n" + Limits() + "}\n\n" + text)
            case Unterminated => r == Err(UnterminatedBlock)
            case Block(o, c) =>
              && o < c < |text|
              && r == if HasServers(alnum, text, o, c) then Err(UnmanagedServers)
                      else if text[c - 1] == '\n' || text[c - 1] == '\r' then Ok(text[..c] + Limits() + text[c..])
                      else Ok(text[..c] + "\n" + Limits() + text[c..])
  {
    MarkerIsFound(LimitsBegin, text);
    MarkerIsFound(LimitsEnd, text);
    SpanInside(text);
    if GlobalSpan(text).Block? {
      assert text[..GlobalSpan(text).closing] + "" == text[..GlobalSpan(text).closing];
    }
  }

  /** Between their markers they are replaced, if that is inside the block and nothing else sets servers there. */
  lemma LimitsReplaced(alnum: AlnumTest, text: Text, i: nat, j: nat, k: nat, l: nat, without: Text)
    requires StandsAt(LimitsBegin, text, i, j) && StandsAt(LimitsEnd, text, k, l)
    requires |without| == |text| && forall n :: 0 <= n < |text| ==> without[n] == if i <= n < l then ' ' else text[n]
    ensures var r := RenderGlobalLimits(alnum, text);
            if k <= i then r == Err(LimitsOrder)
            else
              match GlobalSpan(text)
              case NoBlock => r == Err(LimitsOutside)
              case Unterminated => r == Err(UnterminatedBlock)
              case Block(o, c) =>
                && o < c < |text|
                && r == if i <= o || c <= k then Err(LimitsOutside)
                        else if HasServers(alnum, without, o, c) then Err(UnmanagedServers)
                        else Ok(text[..i] + Limits() + text[l..])
  {
    StandsExactly(LimitsBegin, text, i, j);
    StandsExactly(LimitsEnd, text, k, l);
    SpanInside(text);
    if i < k {
      BlankIs(text, i, l, without);
    }
  }

  lemma BlankIs(text: Text, i: nat, l: nat, without: Text)
    requires i <= l <= |text| && |without| == |text|
    requires forall n :: 0 <= n < |text| ==> without[n] == if i <= n < l then ' ' else text[n]
    ensures Blank(text, i, l) == without
  {
    SpacesAre(l - i);
  }

  // ----- the site -----

  predicate AllBreaks(s: Text) {
    forall i :: 0 <= i < |s| ==> s[i] == '\r' || s[i] == '\n'
  }

  predicate EndsBare(s: Text) {
    s == [] || (s[|s| - 1] != '\r' && s[|s| - 1] != '\n')
  }

  lemma {:induction false} RStripIs(s: Text, t: Text, tail: Text)
    requires s == t + tail && EndsBare(t) && AllBreaks(tail)
    ensures RStripBreaks(s) == t
  {
    if tail == [] {
      assert s == t;
    } else {
      assert s[|s| - 1] == tail[|tail| - 1] && s[..|s| - 1] == t + tail[..|tail| - 1];
      RStripIs(s[..|s| - 1], t, tail[..|tail| - 1]);
    }
  }

  lemma {:induction false} RStripParts(s: Text) returns (tail: Text)
    ensures s == RStripBreaks(s) + tail && EndsBare(RStripBreaks(s)) && AllBreaks(tail)
  {
    tail := [];
    if s != [] && IsBreak(s[|s| - 1]) {
      var less := RStripParts(s[..|s| - 1]);
      tail := less + [s[|s| - 1]];
      assert s == s[..|s| - 1] + [s[|s| - 1]];
    }
  }

  lemma {:induction false} LStripParts(s: Text) returns (head: Text)
    ensures s == head + LStripBreaks(s) && AllBreaks(head)
    ensures LStripBreaks(s) == [] || (LStripBreaks(s)[0] != '\r' && LStripBreaks(s)[0] != '\n')
  {
    head := [];
    if s != [] && IsBreak(s[0]) {
      var less := LStripParts(s[1..]);
      head := [s[0]] + less;
      assert s == [s[0]] + s[1..];
    }
  }

  /** The site is the text without the line breaks around it. */
  lemma SiteIsCore(siteText: Text) returns (head: Text, tail: Text)
    ensures siteText == head + StripBreaks(siteText) + tail && AllBreaks(head) && AllBreaks(tail)
    ensures EndsBare(StripBreaks(siteText))
    ensures StripBreaks(siteText) != [] ==> !IsBreak(StripBreaks(siteText)[0])
    ensures StripBreaks(siteText) == [] <==> AllBreaks(siteText)
  {
    tail := RStripParts(siteText);
    head := LStripParts(RStripBreaks(siteText));
    var site := StripBreaks(siteText);
    if site != [] {
      assert siteText[|head|] == site[0];
      assert RStripBreaks(siteText)[|RStripBreaks(siteText)| - 1] == site[|site| - 1];
    }
  }

  /** The four ways a site can be judged. */
  lemma SiteCheckedExactly(siteText: Text, domain: Text)
    ensures var site := StripBreaks(siteText);
            CheckSite(siteText, domain) ==
            if AllBreaks(siteText) then Some(EmptySite)
            else if !Contains(site, domain) then Some(SiteWithoutDomain)
            else if !Never(SiteBegin, SiteEnd, site) then Some(SiteWithMarkers)
            else None
  {
    var head, tail := SiteIsCore(siteText);
    MarkerIsFound(SiteBegin, StripBreaks(siteText));
    MarkerIsFound(SiteEnd, StripBreaks(siteText));
  }

  lemma SiteUnpaired(current: Text, site: Text, domain: Text)
    ensures FindPlace(current, site, domain) == Err(SitePair) <==>
            !Once(SiteBegin, SiteEnd, current) && !Never(SiteBegin, SiteEnd, current)
  {
    MarkerIsFound(SiteBegin, current);
    MarkerIsFound(SiteEnd, current);
  }

  /** A marked site is replaced where it stands, unless its domain is served elsewhere in the file. */
  lemma SiteReplaced(current: Text, site: Text, domain: Text, i: nat, j: nat, k: nat, l: nat)
    requires StandsAt(SiteBegin, current, i, j) && StandsAt(SiteEnd, current, k, l)
    ensures FindPlace(current, site, domain) ==
            if k <= i then Err(SiteOrder)
            else if Contains(current[..i], domain) || Contains(current[l..], domain) then Err(DomainOutside)
            else Ok(Places(current[..i], current[l..]))
  {
    StandsExactly(SiteBegin, current, i, j);
    StandsExactly(SiteEnd, current, k, l);
  }

  predicate EndsInEmptyLine(s: Text) {
    || (|s| >= 2 && s[|s| - 2..] == ['\n', '\n'])
    || (|s| >= 4 && s[|s| - 4..] == ['\r', '\n', '\r', '\n'])
  }

  /** What is put between a file and the site appended to it. */
  function Gap(current: Text): Text {
    if current == [] || EndsInEmptyLine(current) then []
    else if EndsBare(current) then ['\n', '\n']
    else ['\n']
  }

  lemma BaseIs(current: Text)
    ensures Base(current) == current + Gap(current)
  {
    assert current + [] == current;
    if current != [] {
      if EndsBare(current) {
        BareGetsTwo(current);
        EndingIs(current + ['\n']);
      } else {
        EndingIs(current);
      }
    }
  }

  lemma EndingIs(base: Text)
    ensures EndsWith(base, "\n\n") || EndsWith(base, "\r\n\r\n") <==> EndsInEmptyLine(base)
  {
  }

  lemma BareGetsTwo(current: Text)
    requires current != [] && EndsBare(current)
    ensures !EndsInEmptyLine(current) && !EndsInEmptyLine(current + ['\n'])
    ensures current + ['\n'] + ['\n'] == current + ['\n', '\n']
  {
    var base, n := current + ['\n'], |current|;
    if n >= 2 { assert current[n - 2..][1] == current[n - 1]; }
    if n >= 4 { assert current[n - 4..][3] == current[n - 1]; }
    assert base[|base| - 2..][0] == current[n - 1];
    if |base| >= 4 { assert base[|base| - 4..][2] == current[n - 1]; }
  }

  /** A file that is nothing but the site takes the markers; any other one has the site appended. */
  lemma SitePlaced(current: Text, site: Text, domain: Text)
    requires Never(SiteBegin, SiteEnd, current) && EndsBare(site)
    ensures FindPlace(current, site, domain) ==
            if site <= current && AllBreaks(current[|site|..]) then Ok(Places([], []))
            else if Contains(current, domain) then Err(DomainUnmarked)
            else Ok(Places(current + Gap(current), []))
  {
    MarkerIsFound(SiteBegin, current);
    MarkerIsFound(SiteEnd, current);
    BaseIs(current);
    RStripIs(site, site, []);
    var tail := RStripParts(current);
    if RStripBreaks(current) == site {
      assert current[|site|..] == tail;
    }
    if site <= current && AllBreaks(current[|site|..]) {
      RStripIs(current, site, current[|site|..]);
    }
  }

  /** The whole merge: the site between its markers, then the limits. */
  lemma RenderExactly(alnum: AlnumTest, current: Text, siteText: Text, domain: Text)
    ensures var r := Render(alnum, current, siteText, domain);
            var check, place := CheckSite(siteText, domain), FindPlace(current, StripBreaks(siteText), domain);
            if check.Some? then r == Err(check.value)
            else if place.Err? then r == Err(place.error)
            else r == RenderGlobalLimits(alnum,
                                         place.value.prefix + (SiteBegin.Marker() + "\n" + StripBreaks(siteText) +
                                                "\n" + SiteEnd.Marker() + "\n") + place.value.suffix)
  {
    var site := StripBreaks(siteText);
    var first, last := SiteBegin.Marker(), SiteEnd.Marker();
    assert first + "\n" + (site + "\n") + (last + "\n") == first + "\n" + site + "\n" + last + "\n";
  }
}
