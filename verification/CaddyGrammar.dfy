/**
 The grammar that the two scanners of a Caddyfile implement, stated without either of them. A text
 is a sequence of pieces: comments, quoted strings with escapes, raw strings, braces, and other
 characters. The main results: the block scanner finds exactly a leading block whose braces match
 outside comments and strings, and the search for `servers` finds exactly a word of that name that
 begins a line of the block.
 */
module CaddyGrammar {
  import opened Common
  import opened CaddyText
  import opened CaddyLexer
  import opened CaddyLimits

  /** A character of a double-quoted string, or a backslash with whatever it escapes. */
  datatype Atom = Char(c: char) | Escape(c: char)

  predicate LegalAtom(a: Atom) {
    a.Char? ==> a.c != '"' && a.c != '\\'
  }

  function SpellAtom(a: Atom): Text {
    if a.Char? then [a.c] else ['\\', a.c]
  }

  predicate LegalAtoms(body: seq<Atom>) {
    forall a :: a in body ==> LegalAtom(a)
  }

  function SpellAtoms(body: seq<Atom>): Text {
    if body == [] then [] else SpellAtom(body[0]) + SpellAtoms(body[1..])
  }

  datatype Piece =
    | Other(c: char)
    | Opening
    | Closing
    | Note(text: Text)
    | Double(atoms: seq<Atom>)
    | Raw(body: Text)

  predicate LegalPiece(p: Piece) {
    match p
    case Other(c) => c != '{' && c != '}' && c != '#' && c != '"' && c != '`'
    case Note(text) => '\n' !in text
    case Double(atoms) => LegalAtoms(atoms)
    case Raw(body) => '`' !in body
    case _ => true
  }

  function SpellPiece(p: Piece): (s: Text)
    ensures s != []
  {
    match p
    case Other(c) => [c]
    case Opening => ['{']
    case Closing => ['}']
    case Note(text) => ['#'] + (text + ['\n'])
    case Double(atoms) => ['"'] + (SpellAtoms(atoms) + ['"'])
    case Raw(body) => ['`'] + (body + ['`'])
  }

  function Spell(ps: seq<Piece>): Text {
    if ps == [] then [] else SpellPiece(ps[0]) + Spell(ps[1..])
  }

  predicate Legal(ps: seq<Piece>) {
    forall p :: p in ps ==> LegalPiece(p)
  }

  function Level(p: Piece): int {
    if p.Opening? then 1 else if p.Closing? then -1 else 0
  }

  function Levels(ps: seq<Piece>): int {
    if ps == [] then 0 else Level(ps[0]) + Levels(ps[1..])
  }

  /** Every closing brace has its opening brace before it. */
  predicate Nested(ps: seq<Piece>) {
    forall k :: 0 <= k <= |ps| ==> Levels(ps[..k]) >= 0
  }

  // ----- one piece -----

  lemma {:induction false} NoteRuns(d: int, text: Text)
    requires '\n' !in text
    ensures LexRun(Lex(d, Comment), text + ['\n']) == Lex(d, Normal)
    ensures FindClose(Lex(d, Comment), text + ['\n']).None?
  {
    if text == [] {
      assert text + ['\n'] == ['\n'];
    } else {
      assert (text + ['\n'])[1..] == text[1..] + ['\n'];
      NoteRuns(d, text[1..]);
    }
  }

  lemma {:induction false} RawRuns(d: int, body: Text)
    requires '`' !in body
    ensures LexRun(Lex(d, Quoted('`', false)), body + ['`']) == Lex(d, Normal)
    ensures FindClose(Lex(d, Quoted('`', false)), body + ['`']).None?
  {
    if body == [] {
      assert body + ['`'] == ['`'];
    } else {
      assert (body + ['`'])[1..] == body[1..] + ['`'];
      RawRuns(d, body[1..]);
    }
  }

  lemma {:induction false} DoubleRuns(d: int, atoms: seq<Atom>)
    requires LegalAtoms(atoms)
    ensures LexRun(Lex(d, Quoted('"', false)), SpellAtoms(atoms) + ['"']) == Lex(d, Normal)
    ensures FindClose(Lex(d, Quoted('"', false)), SpellAtoms(atoms) + ['"']).None?
  {
    var s, l := SpellAtoms(atoms) + ['"'], Lex(d, Quoted('"', false));
    if atoms == [] {
      assert s == ['"'];
    } else {
      var rest := SpellAtoms(atoms[1..]) + ['"'];
      DoubleRuns(d, atoms[1..]);
      AtomRuns(d, atoms[0]);
      assert s == SpellAtom(atoms[0]) + rest;
      RunConcat(l, SpellAtom(atoms[0]), rest);
      CloseConcat(l, SpellAtom(atoms[0]), rest);
    }
  }

  lemma {:induction false} AtomRuns(d: int, a: Atom)
    requires LegalAtom(a)
    ensures LexRun(Lex(d, Quoted('"', false)), SpellAtom(a)) == Lex(d, Quoted('"', false))
    ensures FindClose(Lex(d, Quoted('"', false)), SpellAtom(a)).None?
  {
    var s, l := SpellAtom(a), Lex(d, Quoted('"', false));
    if a.Char? {
      assert s[1..] == [];
    } else {
      var hidden := Lex(d, Quoted('"', true));
      assert s[1..] == [a.c] && s[1..][1..] == [] && LexStep(l, '\\') == hidden && LexStep(hidden, a.c) == l;
      assert LexRun(hidden, s[1..]) == l && FindClose(hidden, s[1..]).None?;
    }
  }

  /** A piece moves the lexer by its brace and by nothing else. */
  lemma {:induction false} PieceRuns(d: int, p: Piece)
    requires LegalPiece(p)
    ensures LexRun(Lex(d, Normal), SpellPiece(p)) == Lex(d + Level(p), Normal)
    ensures FindClose(Lex(d, Normal), SpellPiece(p)) == if p.Closing? && d == 1 then Some(0) else None
  {
    var s := SpellPiece(p);
    match p
    case Note(text) =>
      assert s[1..] == text + ['\n'];
      NoteRuns(d, text);
    case Double(atoms) =>
      assert s[1..] == SpellAtoms(atoms) + ['"'];
      DoubleRuns(d, atoms);
    case Raw(body) =>
      assert s[1..] == body + ['`'];
      RawRuns(d, body);
    case _ =>
      assert s[1..] == [];
  }

  // ----- a sequence of pieces -----

  lemma {:induction false} LevelsConcat(a: seq<Piece>, b: seq<Piece>)
    ensures Levels(a + b) == Levels(a) + Levels(b)
  {
    if a == [] {
      assert a + b == b;
    } else {
      assert (a + b)[1..] == a[1..] + b;
      LevelsConcat(a[1..], b);
    }
  }

  lemma {:induction false} SpellConcat(a: seq<Piece>, b: seq<Piece>)
    ensures Spell(a + b) == Spell(a) + Spell(b)
  {
    if a == [] {
      assert a + b == b;
    } else {
      assert (a + b)[1..] == a[1..] + b;
      SpellConcat(a[1..], b);
    }
  }

  lemma {:induction false} NestedTail(d: int, ps: seq<Piece>)
    requires ps != [] && forall k :: 0 <= k <= |ps| ==> d + Levels(ps[..k]) >= 1
    ensures d + Level(ps[0]) >= 1
    ensures forall k :: 0 <= k <= |ps[1..]| ==> d + Level(ps[0]) + Levels(ps[1..][..k]) >= 1
  {
    forall k | 0 <= k <= |ps[1..]|
      ensures d + Level(ps[0]) + Levels(ps[1..][..k]) >= 1
    {
      assert ps[..k + 1] == [ps[0]] + ps[1..][..k];
      LevelsConcat([ps[0]], ps[1..][..k]);
      assert Levels([ps[0]]) == Level(ps[0]) + Levels([]);
    }
    assert ps[1..][..0] == [];
  }

  /** The first closing brace that has no opening brace of its own ends the block. */
  lemma {:induction false} PiecesRun(d: int, ps: seq<Piece>)
    requires Legal(ps) && d >= 1 && forall k :: 0 <= k <= |ps| ==> d + Levels(ps[..k]) >= 1
    ensures LexRun(Lex(d, Normal), Spell(ps)) == Lex(d + Levels(ps), Normal)
    ensures FindClose(Lex(d, Normal), Spell(ps)).None?
    decreases |ps|
  {
    if ps != [] {
      NestedTail(d, ps);
      PieceRuns(d, ps[0]);
      PiecesRun(d + Level(ps[0]), ps[1..]);
      RunConcat(Lex(d, Normal), SpellPiece(ps[0]), Spell(ps[1..]));
      CloseConcat(Lex(d, Normal), SpellPiece(ps[0]), Spell(ps[1..]));
    }
  }

  // ----- reading the pieces off a text that closes -----

  /** Later on in the text that closes. */
  predicate ClosesAt(l: Lex, s: Text, k: nat) {
    s != [] && FindClose(l, s) == Some(k)
  }

  lemma {:induction false} AfterFirst(l: Lex, s: Text, k: nat)
    requires ClosesAt(l, s, k) && (k > 0 || !l.mode.Normal?)
    ensures 0 < k < |s| && ClosesAt(LexStep(l, s[0]), s[1..], k - 1)
  {
  }

  lemma {:induction false} Slices(s: Text, n: nat, m: nat)
    requires n + m <= |s|
    ensures s[n..][m..] == s[n + m..] && s[..n + m] == s[..n] + s[n..][..m]
  {
  }

  lemma {:induction false} FirstSlice(s: Text)
    requires s != []
    ensures s[..1] == [s[0]]
  {
  }

  lemma {:induction false} ReadNote(d: int, s: Text, k: nat) returns (n: nat)
    requires ClosesAt(Lex(d, Comment), s, k)
    ensures n < k < |s| && '\n' !in s[..n] && s[n] == '\n' && ClosesAt(Lex(d, Normal), s[n + 1..], k - n - 1)
  {
    AfterFirst(Lex(d, Comment), s, k);
    if s[0] == '\n' {
      n := 0;
    } else {
      var m := ReadNote(d, s[1..], k - 1);
      Slices(s, 1, m + 1);
      Slices(s, 1, m);
      n := m + 1;
    }
  }

  lemma {:induction false} ReadRaw(d: int, s: Text, k: nat) returns (n: nat)
    requires ClosesAt(Lex(d, Quoted('`', false)), s, k)
    ensures n < k < |s| && '`' !in s[..n] && s[n] == '`' && ClosesAt(Lex(d, Normal), s[n + 1..], k - n - 1)
  {
    AfterFirst(Lex(d, Quoted('`', false)), s, k);
    if s[0] == '`' {
      n := 0;
    } else {
      var m := ReadRaw(d, s[1..], k - 1);
      Slices(s, 1, m + 1);
      Slices(s, 1, m);
      n := m + 1;
    }
  }

  lemma {:induction false} ReadAtom(d: int, s: Text, k: nat) returns (a: Atom, n: nat)
    requires ClosesAt(Lex(d, Quoted('"', false)), s, k) && s[0] != '"'
    ensures LegalAtom(a) && 0 < n <= k < |s| && s[..n] == SpellAtom(a)
    ensures ClosesAt(Lex(d, Quoted('"', false)), s[n..], k - n)
  {
    AfterFirst(Lex(d, Quoted('"', false)), s, k);
    if s[0] == '\\' {
      AfterFirst(Lex(d, Quoted('"', true)), s[1..], k - 1);
      Slices(s, 1, 1);
      a, n := Escape(s[1]), 2;
      assert s[..2] == ['\\', s[1]];
    } else {
      a, n := Char(s[0]), 1;
    }
  }

  /** The atoms take the first n characters, and the quote after them ends the string. */
  predicate ReadsString(d: int, s: Text, k: nat, atoms: seq<Atom>, n: nat) {
    && n < k < |s| && LegalAtoms(atoms) && s[..n] == SpellAtoms(atoms) && s[n] == '"'
    && ClosesAt(Lex(d, Normal), s[n + 1..], k - n - 1)
  }

  lemma {:induction false} ReadDouble(d: int, s: Text, k: nat) returns (atoms: seq<Atom>, n: nat)
    requires ClosesAt(Lex(d, Quoted('"', false)), s, k)
    ensures ReadsString(d, s, k, atoms, n)
    decreases |s|
  {
    if s[0] == '"' {
      AfterFirst(Lex(d, Quoted('"', false)), s, k);
      atoms, n := [], 0;
    } else {
      var a, m := ReadAtom(d, s, k);
      var more, rest := ReadDouble(d, s[m..], k - m);
      JoinAtoms(s, a, m, more, rest);
      atoms, n := [a] + more, m + rest;
    }
  }

  lemma {:induction false} JoinAtoms(s: Text, a: Atom, m: nat, more: seq<Atom>, rest: nat)
    requires m + rest < |s| && s[..m] == SpellAtom(a) && s[m..][..rest] == SpellAtoms(more)
    ensures s[..m + rest] == SpellAtoms([a] + more)
    ensures s[m..][rest] == s[m + rest] && s[m..][rest + 1..] == s[m + rest + 1..]
  {
    Slices(s, m, rest);
    Slices(s, m, rest + 1);
    assert ([a] + more)[1..] == more;
  }

  /** After the opening character of a comment or string stand its body and its end. */
  lemma {:induction false} Delimited(s: Text, m: nat)
    requires m + 1 < |s|
    ensures s[..m + 2] == [s[0]] + (s[1..][..m] + [s[1..][m]]) && s[1..][m + 1..] == s[m + 2..]
  {
  }

  /** The piece takes the first n characters, and after it the block still closes at the same place. */
  predicate Reads(d: int, s: Text, k: nat, p: Piece, n: nat) {
    && LegalPiece(p) && 0 < n <= k <= |s| && s[..n] == SpellPiece(p) && d + Level(p) >= 1
    && ClosesAt(Lex(d + Level(p), Normal), s[n..], k - n)
  }

  lemma {:induction false} ReadNotePiece(d: int, s: Text, k: nat) returns (p: Piece, n: nat)
    requires ClosesAt(Lex(d, Normal), s, k) && k > 0 && d >= 1 && s[0] == '#'
    ensures Reads(d, s, k, p, n)
  {
    AfterFirst(Lex(d, Normal), s, k);
    var m := ReadNote(d, s[1..], k - 1);
    Delimited(s, m);
    p, n := Note(s[1..][..m]), m + 2;
  }

  lemma {:induction false} ReadDoublePiece(d: int, s: Text, k: nat) returns (p: Piece, n: nat)
    requires ClosesAt(Lex(d, Normal), s, k) && k > 0 && d >= 1 && s[0] == '"'
    ensures Reads(d, s, k, p, n)
  {
    AfterFirst(Lex(d, Normal), s, k);
    var atoms, m := ReadDouble(d, s[1..], k - 1);
    Delimited(s, m);
    p, n := Double(atoms), m + 2;
  }

  lemma {:induction false} ReadRawPiece(d: int, s: Text, k: nat) returns (p: Piece, n: nat)
    requires ClosesAt(Lex(d, Normal), s, k) && k > 0 && d >= 1 && s[0] == '`'
    ensures Reads(d, s, k, p, n)
  {
    AfterFirst(Lex(d, Normal), s, k);
    var m := ReadRaw(d, s[1..], k - 1);
    Delimited(s, m);
    p, n := Raw(s[1..][..m]), m + 2;
  }

  lemma {:induction false} ReadCharacter(d: int, s: Text, k: nat) returns (p: Piece, n: nat)
    requires ClosesAt(Lex(d, Normal), s, k) && k > 0 && d >= 1 && s[0] != '#' && s[0] != '"' && s[0] != '`'
    ensures Reads(d, s, k, p, n)
  {
    n := 1;
    AfterFirst(Lex(d, Normal), s, k);
    FirstSlice(s);
    p := if s[0] == '{' then Opening else if s[0] == '}' then Closing else Other(s[0]);
  }

  /** The first piece of a text whose block is closed later on. */
  lemma {:induction false} ReadPiece(d: int, s: Text, k: nat) returns (p: Piece, n: nat)
    requires ClosesAt(Lex(d, Normal), s, k) && k > 0 && d >= 1
    ensures Reads(d, s, k, p, n)
  {
    if s[0] == '#' {
      p, n := ReadNotePiece(d, s, k);
    } else if s[0] == '"' {
      p, n := ReadDoublePiece(d, s, k);
    } else if s[0] == '`' {
      p, n := ReadRawPiece(d, s, k);
    } else {
      p, n := ReadCharacter(d, s, k);
    }
  }

  /** The nesting of a piece and what follows it. */
  lemma {:induction false} NestedFrom(d: int, p: Piece, more: seq<Piece>)
    requires d >= 1 && forall j :: 0 <= j <= |more| ==> d + Level(p) + Levels(more[..j]) >= 1
    ensures forall j :: 0 <= j <= |more| + 1 ==> d + Levels(([p] + more)[..j]) >= 1
  {
    forall j | 0 <= j <= |more| + 1
      ensures d + Levels(([p] + more)[..j]) >= 1
    {
      if j > 0 {
        assert ([p] + more)[..j][1..] == more[..j - 1];
      }
    }
  }

  lemma {:induction false} JoinPieces(s: Text, p: Piece, n: nat, more: seq<Piece>, k: nat)
    requires n <= k <= |s| && s[..n] == SpellPiece(p) && s[n..][..k - n] == Spell(more)
    ensures s[..k] == Spell([p] + more)
  {
    Slices(s, n, k - n);
    assert ([p] + more)[1..] == more;
  }

  lemma {:induction false} ReadPieces(d: int, s: Text, k: nat) returns (ps: seq<Piece>)
    requires ClosesAt(Lex(d, Normal), s, k) && d >= 1
    ensures k <= |s| && Legal(ps) && s[..k] == Spell(ps) && d + Levels(ps) == 1
    ensures forall j :: 0 <= j <= |ps| ==> d + Levels(ps[..j]) >= 1
    decreases |s|
  {
    if k == 0 {
      ps := [];
    } else {
      var p, n := ReadPiece(d, s, k);
      var more := ReadPieces(d + Level(p), s[n..], k - n);
      ps := [p] + more;
      JoinPieces(s, p, n, more, k);
      NestedFrom(d, p, more);
      assert ps[1..] == more;
    }
  }

  // ----- what stands before the block -----

  /** White space or a comment. */
  predicate IsBlank(p: Piece) {
    p.Note? || (p.Other? && IsSpace(p.c))
  }

  predicate Blanks(ps: seq<Piece>) {
    Legal(ps) && forall p :: p in ps ==> IsBlank(p)
  }

  lemma {:induction false} SkipNote(text: Text, rest: Text)
    requires '\n' !in text
    ensures SkipComment(text + ['\n'] + rest) == |text| + 1 + SkipBlank(rest)
  {
    var s := text + ['\n'] + rest;
    if text == [] {
      assert s[1..] == rest;
    } else {
      assert s[1..] == text[1..] + ['\n'] + rest;
      SkipNote(text[1..], rest);
    }
  }

  lemma {:induction false} SkipPiece(p: Piece, rest: Text)
    requires LegalPiece(p) && IsBlank(p)
    ensures SkipBlank(SpellPiece(p) + rest) == |SpellPiece(p)| + SkipBlank(rest)
  {
    var s := SpellPiece(p) + rest;
    if p.Note? {
      SkipNote(p.text, rest);
      assert s == ['#'] + (p.text + ['\n'] + rest) && s[1..] == p.text + ['\n'] + rest;
    } else {
      assert s[1..] == rest;
    }
  }

  lemma {:induction false} SkipBlanks(ps: seq<Piece>, rest: Text)
    requires Blanks(ps)
    ensures SkipBlank(Spell(ps) + rest) == |Spell(ps)| + SkipBlank(rest)
  {
    if ps == [] {
      assert Spell(ps) + rest == rest;
    } else {
      var more := Spell(ps[1..]) + rest;
      SkipBlanks(ps[1..], rest);
      SkipPiece(ps[0], more);
      assert Spell(ps) + rest == SpellPiece(ps[0]) + more;
    }
  }

  /** A text that is no more than the beginning of something, or none of it. */
  predicate StopsBlanks(s: Text) {
    s == [] || (s[0] != '#' && !IsSpace(s[0])) || (s[0] == '#' && '\n' !in s)
  }

  lemma {:induction false} ReadComment(s: Text) returns (n: nat)
    requires '\n' in s
    ensures n < |s| && '\n' !in s[..n] && s[n] == '\n'
  {
    if s[0] == '\n' {
      n := 0;
    } else {
      assert s == [s[0]] + s[1..];
      n := ReadComment(s[1..]);
      assert s[..n + 1] == [s[0]] + s[1..][..n];
      n := n + 1;
    }
  }

  lemma {:induction false} ReadBlank(s: Text) returns (p: Piece, n: nat)
    requires !StopsBlanks(s)
    ensures LegalPiece(p) && IsBlank(p) && 0 < n <= |s| && s[..n] == SpellPiece(p)
  {
    if s[0] == '#' {
      assert s == [s[0]] + s[1..];
      var m := ReadComment(s[1..]);
      Delimited(s, m);
      p, n := Note(s[1..][..m]), m + 2;
    } else {
      FirstSlice(s);
      p, n := Other(s[0]), 1;
    }
  }

  lemma {:induction false} ReadBlanks(s: Text) returns (ps: seq<Piece>, rest: Text)
    ensures Blanks(ps) && s == Spell(ps) + rest && StopsBlanks(rest)
    decreases |s|
  {
    if StopsBlanks(s) {
      ps, rest := [], s;
      assert Spell([]) + s == s;
    } else {
      var p, n := ReadBlank(s);
      var more, tail := ReadBlanks(s[n..]);
      ps, rest := [p] + more, tail;
      JoinBlanks(s, p, n, more, tail);
    }
  }

  lemma {:induction false} JoinBlanks(s: Text, p: Piece, n: nat, more: seq<Piece>, rest: Text)
    requires n <= |s| && s[..n] == SpellPiece(p) && s[n..] == Spell(more) + rest
    ensures s == Spell([p] + more) + rest
  {
    assert ([p] + more)[1..] == more && s == s[..n] + s[n..];
    assert SpellPiece(p) + Spell(more) + rest == SpellPiece(p) + (Spell(more) + rest);
  }

  lemma {:induction false} UnfinishedComment(s: Text)
    requires '\n' !in s
    ensures SkipComment(s) == |s|
  {
    if s != [] {
      UnfinishedComment(s[1..]);
    }
  }

  // ----- the block -----

  /** White space and comments, then a brace, nested pieces, and its closing brace. */
  predicate Leads(s: Text, o: nat, c: nat, before: seq<Piece>, inside: seq<Piece>) {
    o < c < |s| && Blanks(before) && s[..o] == Spell(before) && Encloses(s[o..], c - o, inside)
  }

  predicate Encloses(t: Text, k: nat, inside: seq<Piece>) {
    && 0 < k < |t| && t[0] == '{' && t[k] == '}' && t[1..k] == Spell(inside)
    && Legal(inside) && Nested(inside) && Levels(inside) == 0
  }

  lemma {:induction false} AfterPieces(inside: seq<Piece>, rest: Text)
    requires Legal(inside) && Nested(inside) && Levels(inside) == 0 && rest != [] && rest[0] == '}'
    ensures ClosesAt(Lex(1, Normal), Spell(inside) + rest, |Spell(inside)|)
  {
    PiecesRun(1, inside);
    CloseConcat(Lex(1, Normal), Spell(inside), rest);
  }

  lemma {:induction false} BlockCloses(t: Text, k: nat, inside: seq<Piece>)
    requires Encloses(t, k, inside)
    ensures ClosesAt(OUTSIDE, t, k)
  {
    AfterPieces(inside, t[k..]);
    OpenBrace(t, t[1..k], t[k..]);
  }

  lemma {:induction false} OpenBrace(t: Text, first: Text, rest: Text)
    requires t == ['{'] + first + rest && ClosesAt(Lex(1, Normal), first + rest, |first|)
    ensures ClosesAt(OUTSIDE, t, |first| + 1)
  {
    assert t[1..] == first + rest && LexStep(OUTSIDE, '{') == Lex(1, Normal);
  }

  lemma {:induction false} LeadingBlockIsFound(s: Text, o: nat, c: nat, before: seq<Piece>, inside: seq<Piece>)
    requires Leads(s, o, c, before, inside)
    ensures GlobalSpan(s) == Block(o, c)
  {
    BlanksEndAt(s, o, before);
    BlockCloses(s[o..], c - o, inside);
  }

  lemma {:induction false} BlanksEndAt(s: Text, o: nat, before: seq<Piece>)
    requires o < |s| && s[o] == '{' && Blanks(before) && s[..o] == Spell(before)
    ensures SkipBlank(s) == o
  {
    var rest := s[o..];
    assert s == Spell(before) + rest && SkipBlank(rest) == 0;
    SkipBlanks(before, rest);
  }

  lemma {:induction false} ReadStart(s: Text) returns (before: seq<Piece>)
    requires SkipBlank(s) < |s| && s[SkipBlank(s)] == '{'
    ensures Blanks(before) && s[..SkipBlank(s)] == Spell(before)
  {
    var rest;
    before, rest := ReadBlanks(s);
    SkipBlanks(before, rest);
    if rest != [] && rest[0] == '#' {
      UnfinishedComment(rest);
    }
  }

  lemma {:induction false} ReadInside(t: Text, k: nat) returns (inside: seq<Piece>)
    requires ClosesAt(OUTSIDE, t, k) && t != [] && t[0] == '{'
    ensures Encloses(t, k, inside)
  {
    AfterFirst(OUTSIDE, t, k);
    inside := ReadPieces(1, t[1..], k - 1);
    assert t[1..][..k - 1] == t[1..k];
  }

  lemma {:induction false} FoundBlockLeads(s: Text, o: nat, c: nat) returns (before: seq<Piece>, inside: seq<Piece>)
    requires GlobalSpan(s) == Block(o, c)
    ensures Leads(s, o, c, before, inside)
  {
    before := ReadStart(s);
    inside := ReadInside(s[o..], c - o);
  }

  /** The block scanner answers a block exactly where the text begins with one. */
  lemma BlockExactly(s: Text, o: nat, c: nat)
    ensures GlobalSpan(s) == Block(o, c) <==> exists before, inside :: Leads(s, o, c, before, inside)
  {
    if GlobalSpan(s) == Block(o, c) {
      var before, inside := FoundBlockLeads(s, o, c);
    }
    if before, inside :| Leads(s, o, c, before, inside) {
      LeadingBlockIsFound(s, o, c, before, inside);
    }
  }

  ghost predicate BeginsOther(s: Text, before: seq<Piece>, rest: Text) {
    Blanks(before) && s == Spell(before) + rest && StopsBlanks(rest) && (rest == [] || rest[0] != '{')
  }

  /** It answers that there is none exactly when something else comes first, or nothing does. */
  lemma NoBlockExactly(s: Text)
    ensures GlobalSpan(s).NoBlock? <==> exists before, rest :: BeginsOther(s, before, rest)
  {
    var before, rest := ReadBlanks(s);
    SpanAfterBlanks(s, before, rest);
    if rest == [] || rest[0] != '{' {
      assert BeginsOther(s, before, rest);
    }
    if other, tail :| BeginsOther(s, other, tail) {
      SpanAfterBlanks(s, other, tail);
    }
  }

  lemma {:induction false} SpanAfterBlanks(s: Text, before: seq<Piece>, rest: Text)
    requires Blanks(before) && s == Spell(before) + rest && StopsBlanks(rest)
    ensures GlobalSpan(s).NoBlock? <==> rest == [] || rest[0] != '{'
  {
    SkipBlanks(before, rest);
    if rest != [] && rest[0] == '#' {
      UnfinishedComment(rest);
    }
    assert s[|Spell(before)|..] == rest;
  }
}
