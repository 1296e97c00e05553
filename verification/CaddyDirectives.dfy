/**
 What the search for a `servers` directive answers, on the pieces of the block: a word of that name,
 at the top level, that is the first word of its line. A word that a comment or a string cuts off
 counts for nothing, neither as a directive nor as the first word.
 */
module CaddyDirectives {
  import opened Common
  import opened CaddyText
  import opened CaddyLexer
  import opened CaddyLimits
  import opened CaddyGrammar

  /** Outside every nested block. */
  predicate Top(ps: seq<Piece>, i: nat)
    requires i <= |ps|
  {
    Levels(ps[..i]) == 0
  }

  predicate WordChar(alnum: AlnumTest, ps: seq<Piece>, i: nat)
    requires i < |ps|
  {
    Top(ps, i) && ps[i].Other? && TokenChar(alnum, ps[i].c)
  }

  /** What ends a word, as opposed to cutting it off. */
  predicate EndsWord(alnum: AlnumTest, p: Piece) {
    p.Opening? || (p.Other? && !TokenChar(alnum, p.c))
  }

  predicate EndsLine(ps: seq<Piece>, i: nat)
    requires i < |ps|
  {
    Top(ps, i) && (ps[i].Note? || ps[i] == Other('\n'))
  }

  /** The last character of a whole word. */
  predicate WholeWord(alnum: AlnumTest, ps: seq<Piece>, i: nat)
    requires i + 1 < |ps|
  {
    WordChar(alnum, ps, i) && EndsWord(alnum, ps[i + 1])
  }

  predicate LineBetween(ps: seq<Piece>, i: nat, n: nat)
    requires i < n <= |ps|
  {
    exists j :: i < j < n && EndsLine(ps, j)
  }

  /** Since the last whole word before n a new line has begun. */
  predicate FirstOnLine(alnum: AlnumTest, ps: seq<Piece>, n: nat)
    requires n <= |ps|
  {
    forall i :: 0 <= i < n - 1 && WholeWord(alnum, ps, i) ==> LineBetween(ps, i, n)
  }

  /** How many word characters stand directly before n. */
  function WordBefore(alnum: AlnumTest, ps: seq<Piece>, n: nat): (k: nat)
    requires n <= |ps|
    ensures k <= n
    ensures forall i :: n - k <= i < n ==> WordChar(alnum, ps, i)
    ensures k < n ==> !WordChar(alnum, ps, n - k - 1)
  {
    if n > 0 && WordChar(alnum, ps, n - 1) then WordBefore(alnum, ps, n - 1) + 1 else 0
  }

  predicate SaysServers(ps: seq<Piece>, m: nat) {
    m + 7 <= |ps| && ps[m..m + 7] ==
    [Other('s'), Other('e'), Other('r'), Other('v'), Other('e'), Other('r'), Other('s')]
  }

  /** The directive: the word alone, first on its line, and ended by a space, a brace or the end of the block. */
  predicate ServersAt(alnum: AlnumTest, ps: seq<Piece>, m: nat) {
    && SaysServers(ps, m) && Top(ps, m) && FirstOnLine(alnum, ps, m)
    && (m > 0 ==> !WordChar(alnum, ps, m - 1))
    && (m + 7 < |ps| ==> EndsWord(alnum, ps[m + 7]))
  }

  // ----- the scanner on one piece -----

  lemma {:induction false} RawScan(alnum: AlnumTest, e: Scan, body: Text)
    requires e.Scan? && e.lex.mode == Quoted('`', false) && '`' !in body
    ensures ScanRun(alnum, e, body + ['`']) == e.(lex := e.lex.(mode := Normal))
  {
    if body == [] {
      assert body + ['`'] == ['`'];
    } else {
      assert (body + ['`'])[1..] == body[1..] + ['`'];
      RawScan(alnum, e, body[1..]);
    }
  }

  lemma {:induction false} AtomScan(alnum: AlnumTest, e: Scan, a: Atom)
    requires e.Scan? && e.lex.mode == Quoted('"', false) && LegalAtom(a)
    ensures ScanRun(alnum, e, SpellAtom(a)) == e
  {
    var s, hidden := SpellAtom(a), e.(lex := e.lex.(mode := Quoted('"', true)));
    if a.Char? {
      assert s[1..] == [];
    } else {
      assert s[1..] == [a.c] && s[1..][1..] == [] && ScanStep(alnum, e, '\\') == hidden;
      assert ScanStep(alnum, hidden, a.c) == e;
      assert ScanRun(alnum, hidden, s[1..]) == e;
    }
  }

  lemma {:induction false} DoubleScan(alnum: AlnumTest, e: Scan, atoms: seq<Atom>)
    requires e.Scan? && e.lex.mode == Quoted('"', false) && LegalAtoms(atoms)
    ensures ScanRun(alnum, e, SpellAtoms(atoms) + ['"']) == e.(lex := e.lex.(mode := Normal))
  {
    if atoms == [] {
      assert SpellAtoms(atoms) + ['"'] == ['"'];
    } else {
      var rest := SpellAtoms(atoms[1..]) + ['"'];
      AtomScan(alnum, e, atoms[0]);
      DoubleScan(alnum, e, atoms[1..]);
      assert SpellAtoms(atoms) + ['"'] == SpellAtom(atoms[0]) + rest;
      ScanConcat(alnum, e, SpellAtom(atoms[0]), rest);
    }
  }

  predicate Ready(e: Scan) {
    e.Scan? && e.lex.mode.Normal? && (e.token != [] ==> e.start && e.lex.depth == 1)
  }

  /** A comment or a string drops the word before it; a comment also ends its line. */
  lemma {:induction false} NoteScan(alnum: AlnumTest, e: Scan, text: Text)
    requires Ready(e) && '\n' !in text
    ensures ScanRun(alnum, e, SpellPiece(Note(text))) == Scan(e.lex, [], e.start || e.lex.depth == 1)
  {
    var s, inside := SpellPiece(Note(text)), Scan(e.lex.(mode := Comment), [], e.start);
    assert s[1..] == text + ['\n'] && ScanStep(alnum, e, '#') == inside;
    CommentScan(alnum, inside, text);
    ScanConcat(alnum, inside, text, ['\n']);
    assert ['\n'][1..] == [];
    assert ScanRun(alnum, inside, ['\n']) == ScanStep(alnum, inside, '\n');
  }

  lemma {:induction false} StringScan(alnum: AlnumTest, e: Scan, p: Piece)
    requires Ready(e) && LegalPiece(p) && (p.Double? || p.Raw?)
    ensures ScanRun(alnum, e, SpellPiece(p)) == Scan(e.lex, [], e.start)
  {
    var s := SpellPiece(p);
    if p.Double? {
      var inside := Scan(e.lex.(mode := Quoted('"', false)), [], e.start);
      assert s[1..] == SpellAtoms(p.atoms) + ['"'] && ScanStep(alnum, e, '"') == inside;
      DoubleScan(alnum, inside, p.atoms);
    } else {
      var inside := Scan(e.lex.(mode := Quoted('`', false)), [], e.start);
      assert s[1..] == p.body + ['`'] && ScanStep(alnum, e, '`') == inside;
      RawScan(alnum, inside, p.body);
    }
  }

  lemma {:induction false} CharacterScan(alnum: AlnumTest, e: Scan, p: Piece)
    requires p.Opening? || p.Closing? || p.Other?
    ensures ScanRun(alnum, e, SpellPiece(p)) == ScanStep(alnum, e, SpellPiece(p)[0])
  {
    assert SpellPiece(p)[1..] == [];
  }

  lemma {:induction false} EndScan(alnum: AlnumTest, e: Scan, p: Piece)
    requires Ready(e) && e.lex.depth == 1 && LegalPiece(p) && EndsWord(alnum, p)
    ensures ScanRun(alnum, e, SpellPiece(p)) ==
            if e.start && e.token == SERVERS then Found
            else Scan(Lex(1 + Level(p), Normal), [], p == Other('\n') || (e.start && e.token == []))
  {
    CharacterScan(alnum, e, p);
  }

  // ----- the scanner on the first pieces -----

  /** The word being read. */
  function WordText(alnum: AlnumTest, ps: seq<Piece>, n: nat): Text
    requires n <= |ps|
  {
    Spell(ps[n - WordBefore(alnum, ps, n)..n])
  }

  function StateAt(alnum: AlnumTest, ps: seq<Piece>, n: nat): Scan
    requires n <= |ps|
  {
    var first := FirstOnLine(alnum, ps, n);
    Scan(Lex(1 + Levels(ps[..n]), Normal), if first then WordText(alnum, ps, n) else [], first)
  }

  /** Before the piece at n a `servers` directive ends. */
  predicate FoundAt(alnum: AlnumTest, ps: seq<Piece>, n: nat)
    requires n <= |ps|
  {
    n >= 7 && ServersAt(alnum, ps, n - 7)
  }

  lemma {:induction false} LevelsNext(ps: seq<Piece>, n: nat)
    requires n < |ps|
    ensures Levels(ps[..n + 1]) == Levels(ps[..n]) + Level(ps[n])
  {
    assert ps[..n + 1] == ps[..n] + [ps[n]];
    LevelsConcat(ps[..n], [ps[n]]);
    assert Levels([ps[n]]) == Level(ps[n]) + Levels([]);
  }

  lemma {:induction false} FirstNext(alnum: AlnumTest, ps: seq<Piece>, n: nat)
    requires n < |ps|
    ensures FirstOnLine(alnum, ps, n + 1) <==>
            EndsLine(ps, n) || (FirstOnLine(alnum, ps, n) && !(n > 0 && WholeWord(alnum, ps, n - 1)))
  {
    if EndsLine(ps, n) {
      forall i | 0 <= i < n && WholeWord(alnum, ps, i)
        ensures LineBetween(ps, i, n + 1)
      {
        assert i < n < n + 1 && EndsLine(ps, n);
      }
    } else {
      forall i | 0 <= i < n
        ensures LineBetween(ps, i, n + 1) <==> LineBetween(ps, i, n)
      {
        if j :| i < j < n && EndsLine(ps, j) {
          assert i < j < n + 1;
        }
      }
      if n > 0 && WholeWord(alnum, ps, n - 1) {
        assert !LineBetween(ps, n - 1, n);
      }
    }
  }

  /** Pieces that are single characters. */
  lemma {:induction false} OthersSpell(ps: seq<Piece>)
    requires forall p :: p in ps ==> p.Other?
    ensures |Spell(ps)| == |ps| && forall i :: 0 <= i < |ps| ==> Spell(ps)[i] == ps[i].c
  {
    if ps != [] {
      OthersSpell(ps[1..]);
    }
  }

  lemma {:induction false} WordIsServers(ps: seq<Piece>)
    requires forall p :: p in ps ==> p.Other?
    ensures Spell(ps) == SERVERS <==> |ps| == 7 && SaysServers(ps, 0)
  {
    OthersSpell(ps);
    assert SERVERS == ['s', 'e', 'r', 'v', 'e', 'r', 's'];
    if |ps| == 7 {
      assert ps[0..7] == ps;
      if Spell(ps) == SERVERS {
        forall i | 0 <= i < 7
          ensures ps[i] == Other(SERVERS[i])
        {
          assert ps[i] in ps && Spell(ps)[i] == SERVERS[i];
        }
      }
    }
  }

  lemma {:induction false} WordCharNext(alnum: AlnumTest, ps: seq<Piece>, i: nat)
    requires i < |ps| && WordChar(alnum, ps, i) && AlnumOk(alnum)
    ensures Top(ps, i + 1) && !EndsLine(ps, i) && !EndsWord(alnum, ps[i])
  {
    LevelsNext(ps, i);
    assert !alnum('\n');
  }

  lemma {:induction false} WordBeforeIs(alnum: AlnumTest, ps: seq<Piece>, n: nat, k: nat)
    requires k <= n <= |ps| && forall i :: n - k <= i < n ==> WordChar(alnum, ps, i)
    requires k < n ==> !WordChar(alnum, ps, n - k - 1)
    ensures WordBefore(alnum, ps, n) == k
    decreases n
  {
    if k > 0 {
      WordBeforeIs(alnum, ps, n - 1, k - 1);
    }
  }

  /** Within a word nothing changes about its being the first. */
  lemma {:induction false} FirstThroughWord(alnum: AlnumTest, ps: seq<Piece>, m: nat, n: nat)
    requires m <= n <= |ps| && AlnumOk(alnum) && forall i :: m <= i < n ==> WordChar(alnum, ps, i)
    requires m > 0 ==> !WordChar(alnum, ps, m - 1)
    ensures FirstOnLine(alnum, ps, m) <==> FirstOnLine(alnum, ps, n)
    decreases n
  {
    if m < n {
      FirstThroughWord(alnum, ps, m, n - 1);
      WordCharNext(alnum, ps, n - 1);
      FirstNext(alnum, ps, n - 1);
    }
  }

  lemma {:induction false} LettersAreWordChars(alnum: AlnumTest, ps: seq<Piece>, m: nat, i: nat)
    requires SaysServers(ps, m) && Top(ps, m) && AlnumOk(alnum) && m <= i <= m + 7
    ensures Top(ps, i) && (i < m + 7 ==> WordChar(alnum, ps, i))
    decreases i
  {
    if m < i {
      LettersAreWordChars(alnum, ps, m, i - 1);
      WordCharNext(alnum, ps, i - 1);
    }
    if i < m + 7 {
      assert ps[i] == ps[m..m + 7][i - m];
    }
  }

  lemma {:induction false} WordPieces(alnum: AlnumTest, ps: seq<Piece>, n: nat)
    requires n <= |ps|
    ensures var k := WordBefore(alnum, ps, n); forall p :: p in ps[n - k..n] ==> p.Other?
    ensures |WordText(alnum, ps, n)| == WordBefore(alnum, ps, n)
  {
    var k := WordBefore(alnum, ps, n);
    forall p | p in ps[n - k..n]
      ensures p.Other?
    {
      var i :| 0 <= i < k && ps[n - k..n][i] == p;
      assert WordChar(alnum, ps, n - k + i);
    }
    OthersSpell(ps[n - k..n]);
  }

  lemma {:induction false} DirectiveIsWord(alnum: AlnumTest, ps: seq<Piece>, n: nat)
    requires n <= |ps| && AlnumOk(alnum) && FoundAt(alnum, ps, n)
    ensures FirstOnLine(alnum, ps, n) && WordText(alnum, ps, n) == SERVERS
  {
    var m := n - 7;
    forall i | m <= i < n
      ensures WordChar(alnum, ps, i)
    {
      LettersAreWordChars(alnum, ps, m, i);
    }
    WordBeforeIs(alnum, ps, n, 7);
    FirstThroughWord(alnum, ps, m, n);
    WordPieces(alnum, ps, n);
    WordIsServers(ps[m..n]);
    assert ps[m..n][0..7] == ps[m..m + 7];
  }

  lemma {:induction false} WordIsDirective(alnum: AlnumTest, ps: seq<Piece>, n: nat)
    requires n <= |ps| && AlnumOk(alnum) && FirstOnLine(alnum, ps, n) && WordText(alnum, ps, n) == SERVERS
    requires n < |ps| ==> EndsWord(alnum, ps[n])
    ensures FoundAt(alnum, ps, n)
  {
    WordPieces(alnum, ps, n);
    var m := n - 7;
    WordIsServers(ps[m..n]);
    assert ps[m..n][0..7] == ps[m..m + 7];
    assert WordChar(alnum, ps, m);
    FirstThroughWord(alnum, ps, m, n);
  }

  lemma {:induction false} ReadyAt(alnum: AlnumTest, ps: seq<Piece>, n: nat)
    requires n <= |ps| && AlnumOk(alnum)
    ensures Ready(StateAt(alnum, ps, n))
    ensures StateAt(alnum, ps, n).token != [] <==> FirstOnLine(alnum, ps, n) && n > 0 && WordChar(alnum, ps, n - 1)
  {
    WordPieces(alnum, ps, n);
    if n > 0 && WordChar(alnum, ps, n - 1) {
      WordCharNext(alnum, ps, n - 1);
    }
  }

  /** A piece that is no word character. */
  lemma {:induction false} StateNext(alnum: AlnumTest, ps: seq<Piece>, n: nat)
    requires n < |ps| && !WordChar(alnum, ps, n)
    ensures StateAt(alnum, ps, n + 1) ==
            Scan(Lex(1 + Levels(ps[..n]) + Level(ps[n]), Normal), [], FirstOnLine(alnum, ps, n + 1))
  {
    LevelsNext(ps, n);
    assert ps[n + 1..n + 1] == [];
  }

  lemma {:induction false} SpellOne(p: Piece)
    ensures Spell([p]) == SpellPiece(p)
  {
    assert [p][1..] == [];
  }

  lemma {:induction false} TextGrows(alnum: AlnumTest, ps: seq<Piece>, n: nat)
    requires n < |ps| && WordChar(alnum, ps, n)
    ensures WordText(alnum, ps, n + 1) == WordText(alnum, ps, n) + [ps[n].c]
  {
    SpellGrows(ps, n - WordBefore(alnum, ps, n), n);
  }

  lemma {:induction false} SpellGrows(ps: seq<Piece>, m: nat, n: nat)
    requires m <= n < |ps|
    ensures Spell(ps[m..n + 1]) == Spell(ps[m..n]) + SpellPiece(ps[n])
  {
    assert ps[m..n + 1] == ps[m..n] + [ps[n]];
    SpellConcat(ps[m..n], [ps[n]]);
    SpellOne(ps[n]);
  }

  lemma {:induction false} WordGrows(alnum: AlnumTest, ps: seq<Piece>, n: nat)
    requires n < |ps| && WordChar(alnum, ps, n) && AlnumOk(alnum)
    ensures StateAt(alnum, ps, n + 1) ==
            Scan(Lex(1, Normal), if FirstOnLine(alnum, ps, n) then WordText(alnum, ps, n) + [ps[n].c] else [],
                 FirstOnLine(alnum, ps, n))
  {
    TextGrows(alnum, ps, n);
    WordCharNext(alnum, ps, n);
    FirstNext(alnum, ps, n);
  }

  // ----- one step, by the kind of piece -----

  lemma {:induction false} CutState(alnum: AlnumTest, ps: seq<Piece>, n: nat)
    requires n < |ps| && (ps[n].Note? || ps[n].Double? || ps[n].Raw?)
    ensures var e := StateAt(alnum, ps, n);
            StateAt(alnum, ps, n + 1) == Scan(e.lex, [], e.start || (ps[n].Note? && e.lex.depth == 1))
  {
    StateNext(alnum, ps, n);
    FirstNext(alnum, ps, n);
  }

  lemma {:induction false} StepNote(alnum: AlnumTest, ps: seq<Piece>, n: nat)
    requires n < |ps| && LegalPiece(ps[n]) && AlnumOk(alnum) && ps[n].Note?
    ensures ScanRun(alnum, StateAt(alnum, ps, n), SpellPiece(ps[n])) == StateAt(alnum, ps, n + 1)
  {
    ReadyAt(alnum, ps, n);
    CutState(alnum, ps, n);
    NoteScan(alnum, StateAt(alnum, ps, n), ps[n].text);
  }

  lemma {:induction false} StepString(alnum: AlnumTest, ps: seq<Piece>, n: nat)
    requires n < |ps| && LegalPiece(ps[n]) && AlnumOk(alnum) && (ps[n].Double? || ps[n].Raw?)
    ensures ScanRun(alnum, StateAt(alnum, ps, n), SpellPiece(ps[n])) == StateAt(alnum, ps, n + 1)
  {
    ReadyAt(alnum, ps, n);
    CutState(alnum, ps, n);
    StringScan(alnum, StateAt(alnum, ps, n), ps[n]);
  }

  lemma {:induction false} StepWord(alnum: AlnumTest, ps: seq<Piece>, n: nat)
    requires n < |ps| && LegalPiece(ps[n]) && AlnumOk(alnum) && WordChar(alnum, ps, n)
    ensures ScanRun(alnum, StateAt(alnum, ps, n), SpellPiece(ps[n])) == StateAt(alnum, ps, n + 1)
  {
    ReadyAt(alnum, ps, n);
    CharacterScan(alnum, StateAt(alnum, ps, n), ps[n]);
    WordGrows(alnum, ps, n);
    assert ps[n].c != '\n';
  }

  /** Closing braces, and everything inside nested blocks. */
  lemma {:induction false} StepNested(alnum: AlnumTest, ps: seq<Piece>, n: nat)
    requires n < |ps| && LegalPiece(ps[n]) && AlnumOk(alnum)
    requires ps[n].Closing? || (!Top(ps, n) && (ps[n].Opening? || ps[n].Other?))
    ensures ScanRun(alnum, StateAt(alnum, ps, n), SpellPiece(ps[n])) == StateAt(alnum, ps, n + 1)
  {
    ReadyAt(alnum, ps, n);
    CharacterScan(alnum, StateAt(alnum, ps, n), ps[n]);
    StateNext(alnum, ps, n);
    FirstNext(alnum, ps, n);
    if n > 0 && WordChar(alnum, ps, n - 1) {
      WordCharNext(alnum, ps, n - 1);
    }
  }

  /** At the top level the end of a word decides whether it was the directive. */
  lemma {:induction false} StepEnd(alnum: AlnumTest, ps: seq<Piece>, n: nat)
    requires n < |ps| && LegalPiece(ps[n]) && AlnumOk(alnum) && Top(ps, n) && EndsWord(alnum, ps[n])
    ensures ScanRun(alnum, StateAt(alnum, ps, n), SpellPiece(ps[n])) ==
            if FirstOnLine(alnum, ps, n) && WordText(alnum, ps, n) == SERVERS then Found
            else StateAt(alnum, ps, n + 1)
  {
    ReadyAt(alnum, ps, n);
    EndScan(alnum, StateAt(alnum, ps, n), ps[n]);
    StateNext(alnum, ps, n);
    FirstNext(alnum, ps, n);
  }

  lemma {:induction false} Step(alnum: AlnumTest, ps: seq<Piece>, n: nat)
    requires n < |ps| && LegalPiece(ps[n]) && AlnumOk(alnum)
    ensures ScanRun(alnum, StateAt(alnum, ps, n), SpellPiece(ps[n])) ==
            if FoundAt(alnum, ps, n) then Found else StateAt(alnum, ps, n + 1)
  {
    if FoundAt(alnum, ps, n) {
      DirectiveIsWord(alnum, ps, n);
      LettersAreWordChars(alnum, ps, n - 7, n);
      StepEnd(alnum, ps, n);
    } else if ps[n].Note? {
      StepNote(alnum, ps, n);
    } else if ps[n].Double? || ps[n].Raw? {
      StepString(alnum, ps, n);
    } else if ps[n].Closing? || !Top(ps, n) {
      StepNested(alnum, ps, n);
    } else if WordChar(alnum, ps, n) {
      StepWord(alnum, ps, n);
    } else {
      StepEnd(alnum, ps, n);
      if FirstOnLine(alnum, ps, n) && WordText(alnum, ps, n) == SERVERS {
        WordIsDirective(alnum, ps, n);
      }
    }
  }

  // ----- the whole block -----

  predicate FoundBefore(alnum: AlnumTest, ps: seq<Piece>, n: nat)
    requires n <= |ps|
  {
    exists i :: 0 <= i < n && FoundAt(alnum, ps, i)
  }

  /** The states of the search along the pieces. */
  predicate Along(alnum: AlnumTest, ps: seq<Piece>, states: seq<Scan>) {
    && |states| == |ps| + 1
    && forall n :: 0 <= n < |ps| ==> states[n + 1] == ScanRun(alnum, states[n], SpellPiece(ps[n]))
  }

  lemma {:induction false} ScanAlong(alnum: AlnumTest, ps: seq<Piece>, states: seq<Scan>)
    requires Along(alnum, ps, states)
    ensures ScanRun(alnum, states[0], Spell(ps)) == states[|ps|]
  {
    if ps != [] {
      forall n | 0 <= n < |ps[1..]|
        ensures states[1..][n + 1] == ScanRun(alnum, states[1..][n], SpellPiece(ps[1..][n]))
      {
        assert states[n + 1 + 1] == ScanRun(alnum, states[n + 1], SpellPiece(ps[n + 1]));
      }
      ScanAlong(alnum, ps[1..], states[1..]);
      assert states[0 + 1] == ScanRun(alnum, states[0], SpellPiece(ps[0]));
      ScanConcat(alnum, states[0], SpellPiece(ps[0]), Spell(ps[1..]));
    }
  }

  /** What the search knows after the first n pieces. */
  function KnownAt(alnum: AlnumTest, ps: seq<Piece>, n: nat): Scan
    requires n <= |ps|
  {
    if FoundBefore(alnum, ps, n) then Found else StateAt(alnum, ps, n)
  }

  lemma {:induction false} KnownAtStart(alnum: AlnumTest, ps: seq<Piece>)
    ensures KnownAt(alnum, ps, 0) == IN_BLOCK
  {
    assert ps[..0] == [] && ps[0..0] == [];
  }

  lemma {:induction false} FoundNext(alnum: AlnumTest, ps: seq<Piece>, n: nat)
    requires n < |ps|
    ensures FoundBefore(alnum, ps, n + 1) <==> FoundBefore(alnum, ps, n) || FoundAt(alnum, ps, n)
  {
    if FoundAt(alnum, ps, n) {
      assert 0 <= n < n + 1;
    }
    if i :| 0 <= i < n && FoundAt(alnum, ps, i) {
      assert i < n + 1;
    }
  }

  lemma {:induction false} KnownNext(alnum: AlnumTest, ps: seq<Piece>, n: nat)
    requires n < |ps| && LegalPiece(ps[n]) && AlnumOk(alnum)
    ensures ScanRun(alnum, KnownAt(alnum, ps, n), SpellPiece(ps[n])) == KnownAt(alnum, ps, n + 1)
  {
    FoundNext(alnum, ps, n);
    if FoundBefore(alnum, ps, n) {
      FoundStays(alnum, SpellPiece(ps[n]));
    } else {
      Step(alnum, ps, n);
    }
  }

  lemma {:induction false} ScanPieces(alnum: AlnumTest, ps: seq<Piece>)
    requires Legal(ps) && AlnumOk(alnum)
    ensures ScanRun(alnum, IN_BLOCK, Spell(ps)) == KnownAt(alnum, ps, |ps|)
  {
    var states := seq(|ps| + 1, n requires 0 <= n <= |ps| => KnownAt(alnum, ps, n));
    forall n | 0 <= n < |ps|
      ensures states[n + 1] == ScanRun(alnum, states[n], SpellPiece(ps[n]))
    {
      KnownNext(alnum, ps, n);
    }
    ScanAlong(alnum, ps, states);
    KnownAtStart(alnum, ps);
  }

  predicate HasDirective(alnum: AlnumTest, ps: seq<Piece>) {
    exists m :: 0 <= m <= |ps| && ServersAt(alnum, ps, m)
  }

  lemma {:induction false} FoundAnywhere(alnum: AlnumTest, ps: seq<Piece>)
    ensures HasDirective(alnum, ps) <==> FoundBefore(alnum, ps, |ps|) || FoundAt(alnum, ps, |ps|)
  {
    if m :| 0 <= m <= |ps| && ServersAt(alnum, ps, m) {
      assert FoundAt(alnum, ps, m + 7);
    }
    if i :| 0 <= i < |ps| && FoundAt(alnum, ps, i) {
      assert ServersAt(alnum, ps, i - 7);
    }
  }

  lemma {:induction false} HitAtEnd(alnum: AlnumTest, ps: seq<Piece>)
    requires AlnumOk(alnum)
    ensures FirstOnLine(alnum, ps, |ps|) && WordText(alnum, ps, |ps|) == SERVERS <==> FoundAt(alnum, ps, |ps|)
  {
    if FoundAt(alnum, ps, |ps|) {
      DirectiveIsWord(alnum, ps, |ps|);
    } else if FirstOnLine(alnum, ps, |ps|) && WordText(alnum, ps, |ps|) == SERVERS {
      WordIsDirective(alnum, ps, |ps|);
    }
  }

  lemma {:induction false} EndIsTop(alnum: AlnumTest, ps: seq<Piece>)
    requires Levels(ps) == 0
    ensures Hit(StateAt(alnum, ps, |ps|)) <==>
            FirstOnLine(alnum, ps, |ps|) && WordText(alnum, ps, |ps|) == SERVERS
  {
    assert ps[..|ps|] == ps;
  }

  /** The search finds a directive exactly where there is one. */
  lemma ServersExactly(alnum: AlnumTest, s: Text, o: nat, c: nat, inside: seq<Piece>)
    requires AlnumOk(alnum) && o < c <= |s| && s[o + 1..c] == Spell(inside) && Legal(inside) && Levels(inside) == 0
    ensures HasServers(alnum, s, o, c) <==> HasDirective(alnum, inside)
  {
    ScanPieces(alnum, inside);
    HitAtEnd(alnum, inside);
    EndIsTop(alnum, inside);
    FoundAnywhere(alnum, inside);
  }
}
