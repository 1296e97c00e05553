/**
 How the lexers go through concatenated texts, and that the managed limits, at the start of a line,
 leave them where they were.
 */
module CaddyLimits {
  import opened Common
  import opened CaddyText
  import opened CaddyLexer

  // ---- Running the block lexer over parts of a text ----

  lemma {:induction false} RunConcat(l: Lex, a: Text, b: Text)
    ensures LexRun(l, a + b) == LexRun(LexRun(l, a), b)
    decreases a
  {
    if a == [] {
      assert a + b == b;
    } else {
      assert (a + b)[1..] == a[1..] + b;
      RunConcat(LexStep(l, a[0]), a[1..], b);
    }
  }

  lemma {:induction false} CloseConcat(l: Lex, a: Text, b: Text)
    ensures FindClose(l, a).Some? ==> FindClose(l, a + b) == FindClose(l, a)
    ensures FindClose(l, a).None? ==> Rest(FindClose(l, a + b), |a|, FindClose(LexRun(l, a), b))
    decreases a
  {
    if a == [] {
      assert a + b == b;
    } else {
      assert (a + b)[1..] == a[1..] + b;
      CloseConcat(LexStep(l, a[0]), a[1..], b);
    }
  }

  // ---- Texts that leave the lexer where it was ----

  /** Never below depth `d`. */
  predicate Above(d: int, l: Lex, s: Text)
    decreases s
  {
    l.depth >= d && (s == [] || Above(d, LexStep(l, s[0]), s[1..]))
  }

  predicate Neutral(l: Lex, s: Text) {
    LexRun(l, s) == l && Above(l.depth, l, s)
  }

  lemma {:induction false} AboveConcat(d: int, l: Lex, a: Text, b: Text)
    ensures Above(d, l, a + b) <==> Above(d, l, a) && Above(d, LexRun(l, a), b)
    decreases a
  {
    if a == [] {
      assert a + b == b;
    } else {
      assert (a + b)[1..] == a[1..] + b;
      AboveConcat(d, LexStep(l, a[0]), a[1..], b);
    }
  }

  lemma {:induction false} AboveLower(d: int, d': int, l: Lex, s: Text)
    requires Above(d, l, s) && d' <= d
    ensures Above(d', l, s)
    decreases s
  {
    if s != [] { AboveLower(d, d', LexStep(l, s[0]), s[1..]); }
  }

  lemma {:induction false} NeutralConcat(l: Lex, a: Text, b: Text)
    requires Neutral(l, a) && Neutral(l, b)
    ensures Neutral(l, a + b)
  {
    RunConcat(l, a, b);
    AboveConcat(l.depth, l, a, b);
  }

  lemma {:induction false} AboveNeverCloses(l: Lex, s: Text)
    requires Above(1, l, s)
    ensures FindClose(l, s).None?
    decreases s
  {
    if s != [] { AboveNeverCloses(LexStep(l, s[0]), s[1..]); }
  }

  predicate Plain(s: Text) {
    AllTame(s) && '#' !in s
  }

  lemma {:induction false} PlainNeutral(l: Lex, s: Text)
    requires l.mode.Normal? && Plain(s)
    ensures Neutral(l, s)
    decreases s
  {
    if s != [] {
      assert Tame(s[0]);
      assert forall i :: 0 <= i < |s[1..]| ==> s[1..][i] == s[i + 1];
      PlainNeutral(l, s[1..]);
    }
  }

  /** A quote or backslash is what can end a string or hide its end. */
  predicate QuoteFree(s: Text) {
    forall i :: 0 <= i < |s| ==> s[i] != '"' && s[i] != '`' && s[i] != '\\'
  }

  predicate InString(l: Lex) {
    l.mode.Quoted? && (l.mode.quote == '"' || l.mode.quote == '`') && !l.mode.escaped
  }

  lemma {:induction false} StringNeutral(l: Lex, s: Text)
    requires InString(l) && QuoteFree(s)
    ensures Neutral(l, s)
    decreases s
  {
    if s != [] {
      assert forall i :: 0 <= i < |s[1..]| ==> s[1..][i] == s[i + 1];
      StringNeutral(l, s[1..]);
    }
  }

  lemma {:induction false} CommentStays(l: Lex, s: Text)
    requires l.mode.Comment? && '\n' !in s
    ensures Neutral(l, s)
    decreases s
  {
    if s != [] { CommentStays(l, s[1..]); }
  }

  /** A comment line, indented by plain text. */
  lemma {:induction false} CommentLineNeutral(l: Lex, indent: Text, comment: Text)
    requires l.mode.Normal? && Plain(indent) && comment != [] && comment[0] == '#' && '\n' !in comment
    ensures Neutral(l, indent + comment + "\n")
  {
    var c := l.(mode := Comment);
    PlainNeutral(l, indent);
    CommentStays(c, comment[1..]);
    assert LexRun(l, comment) == c && Above(l.depth, l, comment);
    RunConcat(l, comment, "\n");
    AboveConcat(l.depth, l, comment, "\n");
    assert LexRun(c, "\n") == l && Above(l.depth, c, "\n");
    NeutralConcat(l, indent, comment + "\n");
    assert indent + (comment + "\n") == indent + comment + "\n";
  }

  lemma {:induction false} BracesNeutral(l: Lex, s: Text)
    requires l.mode.Normal? && Neutral(l.(depth := l.depth + 1), s)
    ensures Neutral(l, "{" + s + "}")
  {
    var deeper := l.(depth := l.depth + 1);
    var t := s + "}";
    assert "{" + s + "}" == ['{'] + t;
    assert (['{'] + t)[1..] == t && LexStep(l, '{') == deeper;
    RunConcat(deeper, s, "}");
    AboveLower(deeper.depth, l.depth, deeper, s);
    AboveConcat(l.depth, deeper, s, "}");
    assert LexRun(deeper, "}") == l && Above(l.depth, deeper, "}");
  }

  // ---- The managed limits ----

  const SERVERS_LINE: Text := "\tservers "
  const TIMEOUTS_LINE: Text := "\n\t\ttimeouts "
  const READ_HEADER: Text := "\n\t\t\tread_header 10s"
  const READ_BODY: Text := "\n\t\t\tread_body 15s"
  const WRITE: Text := "\n\t\t\twrite 30s"
  const IDLE: Text := "\n\t\t\tidle 2m\n\t\t"
  const TIMEOUTS: Text := READ_HEADER + READ_BODY + WRITE + IDLE
  const HEADER_SIZE: Text := "\n\t\tmax_header_size 64KB\n\t"

  function IndentedMarker(kind: Kind): Text {
    "\t" + kind.Marker() + "\n"
  }

  function TimeoutsBlock(): Text {
    "{" + TIMEOUTS + "}"
  }

  function ServersBlock(): Text {
    "{" + (TIMEOUTS_LINE + TimeoutsBlock() + HEADER_SIZE) + "}"
  }

  function ServersDirective(): Text {
    SERVERS_LINE + ServersBlock() + "\n"
  }

  function Limits(): Text {
    IndentedMarker(LimitsBegin) + ServersDirective() + IndentedMarker(LimitsEnd)
  }

  lemma {:induction false} WordsArePlain()
    ensures Plain(SERVERS_LINE) && Plain(TIMEOUTS_LINE) && Plain(HEADER_SIZE) && Plain("\n") && Plain("\t")
  {
  }

  lemma {:induction false} TimeoutsArePlain()
    ensures Plain(TIMEOUTS)
  {
    assert Plain(READ_HEADER) && Plain(READ_BODY) && Plain(WRITE) && Plain(IDLE);
    PlainConcat(READ_HEADER, READ_BODY);
    PlainConcat(READ_HEADER + READ_BODY, WRITE);
    PlainConcat(READ_HEADER + READ_BODY + WRITE, IDLE);
  }

  lemma {:induction false} PlainConcat(a: Text, b: Text)
    requires Plain(a) && Plain(b)
    ensures Plain(a + b)
  {
  }

  lemma {:induction false} MarkersHaveNoNewline(kind: Kind)
    ensures '\n' !in kind.Marker() && kind.Marker() != [] && kind.Marker()[0] == '#'
  {
    assert '\n' !in BEGIN && '\n' !in END && '\n' !in OWNER && '\n' !in SITE && '\n' !in SERVER_LIMITS;
  }

  lemma {:induction false} MarkerLineNeutral(l: Lex, kind: Kind)
    requires l.mode.Normal?
    ensures Neutral(l, IndentedMarker(kind))
  {
    WordsArePlain();
    MarkersHaveNoNewline(kind);
    CommentLineNeutral(l, "\t", kind.Marker());
  }

  lemma {:induction false} ServersNeutral(l: Lex)
    requires l.mode.Normal?
    ensures Neutral(l, ServersDirective())
  {
    var l1 := l.(depth := l.depth + 1);
    var l2 := l1.(depth := l1.depth + 1);
    WordsArePlain();
    TimeoutsArePlain();
    PlainNeutral(l2, TIMEOUTS);
    BracesNeutral(l1, TIMEOUTS);
    PlainNeutral(l1, TIMEOUTS_LINE);
    PlainNeutral(l1, HEADER_SIZE);
    NeutralConcat(l1, TIMEOUTS_LINE, TimeoutsBlock());
    NeutralConcat(l1, TIMEOUTS_LINE + TimeoutsBlock(), HEADER_SIZE);
    BracesNeutral(l, TIMEOUTS_LINE + TimeoutsBlock() + HEADER_SIZE);
    PlainNeutral(l, SERVERS_LINE);
    PlainNeutral(l, "\n");
    NeutralConcat(l, SERVERS_LINE, ServersBlock());
    NeutralConcat(l, SERVERS_LINE + ServersBlock(), "\n");
  }

  lemma {:induction false} LimitsQuoteFree()
    ensures QuoteFree(Limits())
  {
    WordsArePlain();
    TimeoutsArePlain();
    MarkersAreTame(LimitsBegin);
    MarkersAreTame(LimitsEnd);
    TameIsQuoteFree(LimitsBegin.Marker());
    TameIsQuoteFree(LimitsEnd.Marker());
    TameIsQuoteFree(SERVERS_LINE);
    TameIsQuoteFree(TIMEOUTS_LINE);
    TameIsQuoteFree(TIMEOUTS);
    TameIsQuoteFree(HEADER_SIZE);
    assert QuoteFree(TimeoutsBlock());
    assert QuoteFree(TIMEOUTS_LINE + TimeoutsBlock() + HEADER_SIZE);
    assert QuoteFree(ServersBlock());
    assert QuoteFree(ServersDirective());
    assert QuoteFree(IndentedMarker(LimitsBegin)) && QuoteFree(IndentedMarker(LimitsEnd));
  }

  lemma {:induction false} TameIsQuoteFree(s: Text)
    requires AllTame(s)
    ensures QuoteFree(s)
  {
    forall i | 0 <= i < |s| ensures s[i] != '"' && s[i] != '`' && s[i] != '\\' {
      assert Tame(s[i]);
    }
  }

  /** At the start of a line the limits are invisible to the lexer, whatever surrounds them. */
  lemma {:induction false} LimitsNeutral(l: Lex)
    requires l.mode.Normal? || InString(l)
    ensures Neutral(l, Limits())
  {
    if l.mode.Normal? {
      MarkerLineNeutral(l, LimitsBegin);
      MarkerLineNeutral(l, LimitsEnd);
      ServersNeutral(l);
      NeutralConcat(l, IndentedMarker(LimitsBegin), ServersDirective());
      NeutralConcat(l, IndentedMarker(LimitsBegin) + ServersDirective(), IndentedMarker(LimitsEnd));
    } else {
      LimitsQuoteFree();
      StringNeutral(l, Limits());
    }
  }

  // ---- Line starts ----

  /** Only a double-quoted string escapes. */
  predicate Possible(l: Lex) {
    l.mode.Quoted? ==> l.mode.quote == '"' || (l.mode.quote == '`' && !l.mode.escaped)
  }

  lemma {:induction false} RunPossible(l: Lex, s: Text)
    requires Possible(l)
    ensures Possible(LexRun(l, s))
    decreases s
  {
    if s != [] { RunPossible(LexStep(l, s[0]), s[1..]); }
  }

  /** After a newline the lexer is in no comment and behind no backslash. */
  lemma {:induction false} AtLineStart(l: Lex, s: Text)
    requires Possible(l) && s != [] && s[|s| - 1] == '\n'
    ensures LexRun(l, s).mode.Normal? || InString(LexRun(l, s))
  {
    var a := s[..|s| - 1];
    assert s == a + ['\n'];
    RunConcat(l, a, ['\n']);
    RunPossible(l, a);
    assert LexRun(LexRun(l, a), ['\n']) == LexStep(LexRun(l, a), '\n');
  }

  function Spaces(n: nat): Text {
    if n == 0 then [] else [' '] + Spaces(n - 1)
  }

  lemma {:induction false} SpacesNeutral(l: Lex, n: nat)
    requires l.mode.Normal? || InString(l)
    ensures Neutral(l, Spaces(n))
  {
    if n > 0 {
      SpacesNeutral(l, n - 1);
      assert Spaces(n)[1..] == Spaces(n - 1);
    }
  }

  /** A line that turns into a comment does not leave the lexer ready for a closing brace. */
  lemma {:induction false} CommentedNotNormal(l: Lex, head: Text)
    requires AllTame(head) && '\n' !in head && Possible(l)
    ensures '#' in head || !l.mode.Normal? ==> !LexRun(l, head).mode.Normal?
    decreases head
  {
    if head != [] {
      assert Tame(head[0]);
      assert forall i :: 0 <= i < |head[1..]| ==> head[1..][i] == head[i + 1];
      assert head == [head[0]] + head[1..];
      CommentedNotNormal(LexStep(l, head[0]), head[1..]);
    }
  }

  // ---- The search for `servers` over parts of a text ----

  lemma {:induction false} ScanConcat(alnum: AlnumTest, e: Scan, a: Text, b: Text)
    ensures ScanRun(alnum, e, a + b) == ScanRun(alnum, ScanRun(alnum, e, a), b)
    decreases a
  {
    if a == [] {
      assert a + b == b;
    } else {
      assert (a + b)[1..] == a[1..] + b;
      ScanConcat(alnum, ScanStep(alnum, e, a[0]), a[1..], b);
    }
  }

  /** A token is being read only at the start of a top-level directive. */
  predicate TokenOk(e: Scan) {
    e.Scan? && e.token != [] ==> e.start && e.lex == Lex(1, Normal)
  }

  /** Until it finds something the search follows the block lexer. */
  lemma {:induction false} ScanFollows(alnum: AlnumTest, e: Scan, s: Text)
    requires TokenOk(e)
    ensures TokenOk(ScanRun(alnum, e, s))
    ensures e.Scan? && ScanRun(alnum, e, s).Scan? ==> ScanRun(alnum, e, s).lex == LexRun(e.lex, s)
    decreases s
  {
    if s != [] {
      ScanFollows(alnum, ScanStep(alnum, e, s[0]), s[1..]);
      if e.Scan? && ScanStep(alnum, e, s[0]).Found? { FoundStays(alnum, s[1..]); }
    }
  }

  /** One space settles the token that was being read; more spaces change nothing. */
  lemma {:induction false} SpacesSettle(alnum: AlnumTest, e: Scan, n: nat)
    requires AlnumOk(alnum) && TokenOk(e) && n > 0 && (e.Scan? ==> e.lex.mode.Normal? || InString(e.lex))
    ensures ScanRun(alnum, e, Spaces(n)) == ScanStep(alnum, e, ' ')
    decreases n
  {
    assert Spaces(n)[1..] == Spaces(n - 1) && Spaces(n)[0] == ' ';
    assert !alnum(' ');
    if n > 1 {
      SpacesSettle(alnum, ScanStep(alnum, e, ' '), n - 1);
    }
  }

  /** Two or more levels deep the search sees nothing. */
  lemma {:induction false} DeepScan(alnum: AlnumTest, e: Scan, s: Text)
    requires e.Scan? && e.token == [] && Above(2, e.lex, s)
    ensures ScanRun(alnum, e, s) == Scan(LexRun(e.lex, s), [], e.start)
    decreases s
  {
    if s != [] { DeepScan(alnum, ScanStep(alnum, e, s[0]), s[1..]); }
  }

  lemma {:induction false} StringScan(alnum: AlnumTest, e: Scan, s: Text)
    requires e.Scan? && InString(e.lex) && QuoteFree(s)
    ensures ScanRun(alnum, e, s) == e
    decreases s
  {
    if s != [] {
      assert forall i :: 0 <= i < |s[1..]| ==> s[1..][i] == s[i + 1];
      StringScan(alnum, e, s[1..]);
    }
  }

  lemma {:induction false} CommentScan(alnum: AlnumTest, e: Scan, s: Text)
    requires e.Scan? && e.lex.mode.Comment? && '\n' !in s
    ensures ScanRun(alnum, e, s) == e
    decreases s
  {
    if s != [] { CommentScan(alnum, e, s[1..]); }
  }

  lemma {:induction false} NewlineStep(alnum: AlnumTest, e: Scan)
    requires AlnumOk(alnum) && TokenOk(e) && e.Scan? && Possible(e.lex) && ScanStep(alnum, e, '\n').Scan?
    ensures var e' := ScanStep(alnum, e, '\n'); e'.token == [] && (e'.lex == Lex(1, Normal) ==> e'.start)
  {
    assert !alnum('\n');
  }

  /** After a newline no token is being read, and at the top level a directive may start. */
  lemma {:induction false} ScanAtLineStart(alnum: AlnumTest, e: Scan, s: Text)
    requires AlnumOk(alnum) && e.Scan? && TokenOk(e) && Possible(e.lex) && s != [] && s[|s| - 1] == '\n'
    requires ScanRun(alnum, e, s).Scan?
    ensures var e' := ScanRun(alnum, e, s);
            && e'.token == [] && e'.lex == LexRun(e.lex, s)
            && (e'.lex == Lex(1, Normal) ==> e'.start)
  {
    assert s == s[..|s| - 1] + ['\n'];
    ScanFollows(alnum, e, s);
    ScanLastLine(alnum, e, s[..|s| - 1]);
  }

  lemma {:induction false} ScanLastLine(alnum: AlnumTest, e: Scan, a: Text)
    requires AlnumOk(alnum) && e.Scan? && TokenOk(e) && Possible(e.lex)
    requires ScanRun(alnum, e, a + ['\n']).Scan?
    ensures var e' := ScanRun(alnum, e, a + ['\n']); e'.token == [] && (e'.lex == Lex(1, Normal) ==> e'.start)
  {
    var e0 := ScanRun(alnum, e, a);
    ScanConcat(alnum, e, a, ['\n']);
    OneChar(alnum, e0, '\n');
    ScanFollows(alnum, e, a);
    RunPossible(e.lex, a);
    if e0.Scan? { NewlineStep(alnum, e0); }
  }

  /** At the top level, between directives, the limits are found. */
  lemma {:induction false} LimitsAreFound(alnum: AlnumTest)
    requires AlnumOk(alnum)
    ensures ScanRun(alnum, IN_BLOCK, Limits()) == Found
  {
    var marker, rest := IndentedMarker(LimitsBegin), ServersBlock() + "\n" + IndentedMarker(LimitsEnd);
    MarkerScan(alnum, LimitsBegin);
    ServersScan(alnum);
    FoundAfter(alnum, marker, SERVERS_LINE, rest);
    Regroup(marker, SERVERS_LINE, ServersBlock(), "\n", IndentedMarker(LimitsEnd));
  }

  lemma {:induction false} Regroup(a: Text, b: Text, c: Text, d: Text, e: Text)
    ensures a + (b + (c + d + e)) == a + (b + c + d) + e
  {
  }

  lemma {:induction false} FoundAfter(alnum: AlnumTest, skipped: Text, found: Text, rest: Text)
    requires ScanRun(alnum, IN_BLOCK, skipped) == IN_BLOCK && ScanRun(alnum, IN_BLOCK, found) == Found
    ensures ScanRun(alnum, IN_BLOCK, skipped + (found + rest)) == Found
  {
    ScanConcat(alnum, IN_BLOCK, skipped, found + rest);
    ScanConcat(alnum, IN_BLOCK, found, rest);
    FoundStays(alnum, rest);
  }

  lemma {:induction false} MarkerScan(alnum: AlnumTest, kind: Kind)
    requires AlnumOk(alnum)
    ensures ScanRun(alnum, IN_BLOCK, IndentedMarker(kind)) == IN_BLOCK
  {
    MarkersHaveNoNewline(kind);
    var comment := kind.Marker();
    var inComment := Scan(Lex(1, Comment), [], true);
    assert !alnum('\t');
    assert IndentedMarker(kind) == ['\t'] + (comment + ['\n']);
    ScanConcat(alnum, IN_BLOCK, ['\t'], comment + ['\n']);
    ScanConcat(alnum, IN_BLOCK, comment, ['\n']);
    CommentScan(alnum, inComment, comment[1..]);
    assert ScanRun(alnum, IN_BLOCK, ['\t']) == IN_BLOCK;
    assert ScanRun(alnum, IN_BLOCK, comment) == inComment;
    assert ScanRun(alnum, inComment, ['\n']) == IN_BLOCK;
  }

  lemma {:induction false} ServersScan(alnum: AlnumTest)
    requires AlnumOk(alnum)
    ensures ScanRun(alnum, IN_BLOCK, SERVERS_LINE) == Found
  {
    ServersIsToken(alnum);
    DirectiveScan(alnum, SERVERS);
    ServersSettles(alnum);
    assert SERVERS_LINE == ['\t'] + (SERVERS + [' ']);
  }

  predicate Word(alnum: AlnumTest, t: Text) {
    forall i :: 0 <= i < |t| ==> TokenChar(alnum, t[i]) && Tame(t[i]) && t[i] != '#'
  }

  lemma {:induction false} ServersIsToken(alnum: AlnumTest)
    requires AlnumOk(alnum)
    ensures Word(alnum, SERVERS)
  {
    forall i | 0 <= i < |SERVERS| ensures TokenChar(alnum, SERVERS[i]) && Tame(SERVERS[i]) && SERVERS[i] != '#' {
      assert alnum(SERVERS[i]) == IsAsciiAlnum(SERVERS[i]);
    }
  }

  /** A word after a tab is read as a token, which the space that follows settles. */
  lemma {:induction false} DirectiveScan(alnum: AlnumTest, t: Text)
    requires AlnumOk(alnum) && Word(alnum, t)
    ensures ScanRun(alnum, IN_BLOCK, ['\t'] + (t + [' '])) == ScanStep(alnum, Scan(Lex(1, Normal), t, true), ' ')
  {
    TabScan(alnum);
    ScanConcat(alnum, IN_BLOCK, ['\t'], t + [' ']);
    WordScan(alnum, IN_BLOCK, t);
  }

  lemma {:induction false} TabScan(alnum: AlnumTest)
    requires AlnumOk(alnum)
    ensures ScanRun(alnum, IN_BLOCK, ['\t']) == IN_BLOCK
  {
    assert !alnum('\t');
    OneChar(alnum, IN_BLOCK, '\t');
  }

  lemma {:induction false} WordScan(alnum: AlnumTest, e: Scan, t: Text)
    requires e == IN_BLOCK && Word(alnum, t)
    ensures ScanRun(alnum, e, t + [' ']) == ScanStep(alnum, Scan(Lex(1, Normal), t, true), ' ')
  {
    TokenScan(alnum, e, t);
    assert e.token + t == t;
    OneChar(alnum, Scan(Lex(1, Normal), t, true), ' ');
    ScanConcat(alnum, e, t, [' ']);
  }

  lemma {:induction false} OneChar(alnum: AlnumTest, e: Scan, c: char)
    ensures ScanRun(alnum, e, [c]) == ScanStep(alnum, e, c)
  {
    assert [c][1..] == [];
  }

  lemma {:induction false} ServersSettles(alnum: AlnumTest)
    requires AlnumOk(alnum)
    ensures ScanStep(alnum, Scan(Lex(1, Normal), SERVERS, true), ' ') == Found
  {
    assert !alnum(' ');
  }

  lemma {:induction false} TokenScan(alnum: AlnumTest, e: Scan, t: Text)
    requires e.Scan? && e.lex == Lex(1, Normal) && e.start && Word(alnum, t)
    ensures ScanRun(alnum, e, t) == Scan(Lex(1, Normal), e.token + t, true)
    decreases t
  {
    if t == [] {
      assert e.token + t == e.token;
    } else {
      assert forall i :: 0 <= i < |t[1..]| ==> t[1..][i] == t[i + 1];
      TokenScan(alnum, e.(token := e.token + [t[0]]), t[1..]);
      assert e.token + [t[0]] + t[1..] == e.token + t;
    }
  }
}
