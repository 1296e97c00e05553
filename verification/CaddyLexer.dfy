/**
 The two lexers of the Caddyfile merger. One finds the braces of the leading global options block,
 the other looks for a top-level `servers` directive in it. Both skip comments, quoted strings with
 backslash escapes, and raw strings.
 */
module CaddyLexer {
  import opened Common
  import opened CaddyText

  datatype Mode = Normal | Comment | Quoted(quote: char, escaped: bool)

  datatype Lex = Lex(depth: int, mode: Mode)

  function QuotedStep(m: Mode, c: char): Mode
    requires m.Quoted?
  {
    if m.quote == '"' && m.escaped then Quoted(m.quote, false)
    else if m.quote == '"' && c == '\\' then Quoted(m.quote, true)
    else if c == m.quote then Normal
    else m
  }

  function LexStep(l: Lex, c: char): Lex {
    match l.mode
    case Comment => if c == '\n' then l.(mode := Normal) else l
    case Quoted(_, _) => l.(mode := QuotedStep(l.mode, c))
    case Normal =>
      if c == '#' then l.(mode := Comment)
      else if c == '"' || c == '`' then l.(mode := Quoted(c, false))
      else if c == '{' then l.(depth := l.depth + 1)
      else if c == '}' then l.(depth := l.depth - 1)
      else l
  }

  function LexRun(l: Lex, s: Text): Lex
    decreases s
  {
    if s == [] then l else LexRun(LexStep(l, s[0]), s[1..])
  }

  /** The brace that closes the block. */
  predicate Closes(l: Lex, c: char) {
    l.mode.Normal? && c == '}' && l.depth == 1
  }

  function FindClose(l: Lex, s: Text): (i: Option<nat>)
    ensures i.Some? ==> i.value < |s| && s[i.value] == '}'
    decreases s
  {
    if s == [] then None
    else if Closes(l, s[0]) then Some(0)
    else
      var i := FindClose(LexStep(l, s[0]), s[1..]);
      if i.None? then None else Some(i.value + 1)
  }

  /** White space and comment lines before the block. */
  function SkipBlank(s: Text): (n: nat)
    ensures n <= |s|
    decreases |s|, 1
  {
    if s == [] then 0
    else if IsSpace(s[0]) then 1 + SkipBlank(s[1..])
    else if s[0] == '#' then SkipComment(s)
    else 0
  }

  function SkipComment(s: Text): (n: nat)
    ensures n <= |s|
    decreases |s|, 0
  {
    if s == [] then 0
    else if s[0] == '\n' then 1 + SkipBlank(s[1..])
    else 1 + SkipComment(s[1..])
  }

  const OUTSIDE := Lex(0, Normal)

  datatype Span = NoBlock | Block(opening: nat, closing: nat) | Unterminated

  function GlobalSpan(s: Text): Span {
    var o := SkipBlank(s);
    if o == |s| || s[o] != '{' then NoBlock
    else
      match FindClose(OUTSIDE, s[o..])
      case None => Unterminated
      case Some(i) => Block(o, o + i)
  }

  // ---- The search for `servers` ----

  /** What `str.isalnum` says; on ASCII it is fixed. */
  type AlnumTest = char -> bool

  ghost predicate AlnumOk(alnum: AlnumTest) {
    forall c: char :: c < '\U{80}' ==> alnum(c) == IsAsciiAlnum(c)
  }

  const SERVERS: Text := "servers"

  datatype Scan = Found | Scan(lex: Lex, token: Text, start: bool)

  predicate TokenChar(alnum: AlnumTest, c: char) {
    alnum(c) || c == '_' || c == '-'
  }

  function ScanStep(alnum: AlnumTest, e: Scan, c: char): Scan {
    if e.Found? then Found
    else
      var l := LexStep(e.lex, c);
      if e.lex.mode.Comment? then Scan(l, e.token, e.start || (c == '\n' && e.lex.depth == 1))
      else if e.lex.mode.Quoted? then Scan(l, e.token, e.start)
      else if c == '#' || c == '"' || c == '`' then Scan(l, [], e.start)
      else if c == '{' then
        if e.lex.depth == 1 && e.token != [] then
          if e.start && e.token == SERVERS then Found else Scan(l, [], false)
        else Scan(l, [], e.start)
      else if c == '}' then Scan(l, [], e.start)
      else if e.lex.depth == 1 && e.start && TokenChar(alnum, c) then Scan(l, e.token + [c], e.start)
      else if e.lex.depth == 1 then
        if e.token == SERVERS then Found
        else if e.token != [] then Scan(l, [], c == '\n')
        else Scan(l, [], e.start || c == '\n')
      else Scan(l, e.token, e.start)
  }

  function ScanRun(alnum: AlnumTest, e: Scan, s: Text): Scan
    decreases s
  {
    if s == [] then e else ScanRun(alnum, ScanStep(alnum, e, s[0]), s[1..])
  }

  const IN_BLOCK := Scan(Lex(1, Normal), [], true)

  predicate Hit(e: Scan) {
    e.Found? || (e.lex.depth == 1 && e.start && e.token == SERVERS)
  }

  function HasServers(alnum: AlnumTest, s: Text, opening: nat, closing: nat): bool
    requires opening < closing <= |s|
  {
    Hit(ScanRun(alnum, IN_BLOCK, s[opening + 1..closing]))
  }

  // ---- The loops ----

  method SkipToBlock(text: Text) returns (pos: nat)
    ensures pos == SkipBlank(text)
  {
    pos := 0;
    assert text[0..] == text;
    while pos < |text|
      invariant pos <= |text| && SkipBlank(text) == pos + SkipBlank(text[pos..])
    {
      if IsSpace(text[pos]) {
        assert text[pos..][1..] == text[pos + 1..];
        pos := pos + 1;
        continue;
      }
      if text[pos] == '#' {
        ghost var from := pos;
        while pos < |text| && text[pos] != '\n'
          invariant from <= pos <= |text|
          invariant SkipComment(text[from..]) == pos - from + SkipComment(text[pos..])
        {
          assert text[pos..][1..] == text[pos + 1..];
          pos := pos + 1;
        }
        if pos < |text| {
          assert text[pos..][1..] == text[pos + 1..];
          pos := pos + 1;
        }
        continue;
      }
      break;
    }
  }

  /** What both loops do with the lexer variables for one character. */
  method Advance(c: char, depth: int, quote: Option<char>, escaped: bool, inComment: bool)
    returns (depth': int, quote': Option<char>, escaped': bool, inComment': bool)
    requires Consistent(quote, escaped, inComment)
    ensures Consistent(quote', escaped', inComment')
    ensures LexOf(depth', quote', escaped', inComment') == LexStep(LexOf(depth, quote, escaped, inComment), c)
  {
    depth', quote', escaped', inComment' := depth, quote, escaped, inComment;
    if inComment {
      if c == '\n' { inComment' := false; }
    } else if quote.Some? {
      if quote.value == '"' && escaped {
        escaped' := false;
      } else if quote.value == '"' && c == '\\' {
        escaped' := true;
      } else if c == quote.value {
        quote' := None;
      }
    } else if c == '#' {
      inComment' := true;
    } else if c == '"' || c == '`' {
      quote' := Some(c);
    } else if c == '{' {
      depth' := depth + 1;
    } else if c == '}' {
      depth' := depth - 1;
    }
  }

  /** `_global_block_span` */
  method GlobalBlockSpan(text: Text) returns (span: Span)
    ensures span == GlobalSpan(text)
  {
    var pos := SkipToBlock(text);
    if pos >= |text| || text[pos] != '{' {
      return NoBlock;
    }
    var opening := pos;
    var depth, quote: Option<char>, escaped, inComment := 0, None, false, false;
    ghost var target := FindClose(OUTSIDE, text[opening..]);
    while pos < |text|
      invariant opening <= pos <= |text|
      invariant Consistent(quote, escaped, inComment)
      invariant Rest(target, pos - opening, FindClose(LexOf(depth, quote, escaped, inComment), text[pos..]))
    {
      var c := text[pos];
      FindCloseStep(LexOf(depth, quote, escaped, inComment), text, pos);
      if !inComment && quote.None? && c == '}' && depth == 1 {
        return Block(opening, pos);
      }
      depth, quote, escaped, inComment := Advance(c, depth, quote, escaped, inComment);
      pos := pos + 1;
    }
    return Unterminated;
  }

  predicate Consistent(quote: Option<char>, escaped: bool, inComment: bool) {
    (quote.Some? ==> !inComment) && (escaped ==> quote == Some('"'))
  }

  function LexOf(depth: int, quote: Option<char>, escaped: bool, inComment: bool): Lex {
    Lex(depth, if inComment then Comment else if quote.Some? then Quoted(quote.value, escaped) else Normal)
  }

  lemma {:induction false} FindCloseStep(l: Lex, s: Text, pos: nat)
    requires pos < |s|
    ensures Closes(l, s[pos]) ==> FindClose(l, s[pos..]) == Some(0)
    ensures !Closes(l, s[pos]) ==> Rest(FindClose(l, s[pos..]), 1, FindClose(LexStep(l, s[pos]), s[pos + 1..]))
  {
    assert s[pos..][1..] == s[pos + 1..];
  }

  predicate Rest(whole: Option<nat>, done: nat, rest: Option<nat>) {
    whole == if rest.None? then None else Some(done + rest.value)
  }

  /** `_has_top_level_servers` */
  method HasTopLevelServers(alnum: AlnumTest, text: Text, opening: nat, closing: nat) returns (found: bool)
    requires opening < closing <= |text|
    ensures found == HasServers(alnum, text, opening, closing)
  {
    var pos, depth, quote: Option<char>, escaped, inComment := opening + 1, 1, None, false, false;
    var token, atDirectiveStart := [], true;
    ghost var part := text[opening + 1..closing];
    while pos < closing
      invariant opening < pos <= closing
      invariant Consistent(quote, escaped, inComment)
      invariant ScanRun(alnum, IN_BLOCK, part)
             == ScanRun(alnum, Scan(LexOf(depth, quote, escaped, inComment), token, atDirectiveStart),
                        text[pos..closing])
    {
      var c := text[pos];
      assert text[pos..closing][1..] == text[pos + 1..closing];
      if inComment {
        if c == '\n' && depth == 1 { atDirectiveStart := true; }
      } else if quote.Some? {
      } else if c == '#' || c == '"' || c == '`' {
        token := [];
      } else if c == '{' {
        if depth == 1 && token != [] {
          if atDirectiveStart && token == SERVERS {
            FoundStays(alnum, text[pos + 1..closing]);
            return true;
          }
          atDirectiveStart := false;
        }
        token := [];
      } else if c == '}' {
        token := [];
      } else if depth == 1 && atDirectiveStart && TokenChar(alnum, c) {
        token := token + [c];
      } else if depth == 1 {
        if token != [] {
          if token == SERVERS {
            FoundStays(alnum, text[pos + 1..closing]);
            return true;
          }
          token, atDirectiveStart := [], false;
        }
        if c == '\n' { atDirectiveStart := true; }
      }
      depth, quote, escaped, inComment := Advance(c, depth, quote, escaped, inComment);
      pos := pos + 1;
    }
    return depth == 1 && atDirectiveStart && token == SERVERS;
  }

  lemma {:induction false} FoundStays(alnum: AlnumTest, s: Text)
    ensures ScanRun(alnum, Found, s) == Found
  {
    if s != [] { FoundStays(alnum, s[1..]); }
  }
}
