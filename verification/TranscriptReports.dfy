/**
 What the readers of the transcript take from it, said of the bytes and rows themselves: which lines count, which
 control changes are recorded and announced, and what one step of the permission cycle answers.
 */
module TranscriptReports {
  import opened Common
  import opened OutputTails
  import opened TranscriptControl
  import opened TranscriptWatch
  import P = PermissionCycle

  // ---- Lines ----

  lemma {:induction false} SplitLine(partial: Bytes, line: Bytes)
    requires forall i :: 0 <= i < |line| ==> line[i] != 10
    ensures Split(partial, line) == Cut([], partial + line)
    decreases |line|
  {
    if line == [] {
      assert partial + line == partial;
    } else {
      SplitLine(partial + [line[0]], line[1..]);
      assert partial + [line[0]] + line[1..] == partial + line;
    }
  }

  lemma SplitWholeLine(line: Bytes, rest: Bytes)
    requires forall i :: 0 <= i < |line| ==> line[i] != 10
    ensures var cut := Split([], line + [10] + rest);
            cut == Cut([line] + Split([], rest).lines, Split([], rest).partial)
  {
    SplitLine([], line);
    assert [] + line == line;
    SplitConcat([], line, [10] + rest);
    assert line + ([10] + rest) == line + [10] + rest;
    assert ([10] + rest)[1..] == rest;
    assert [] + ([line] + Split([], rest).lines) == [line] + Split([], rest).lines;
  }

  /**
   One line more or less, wherever it stands: it counts for exactly the record it decodes to if it is neither empty
   nor longer than 256 KiB, and otherwise for nothing.
   */
  lemma LineCounts<R>(decode: Decode<R>, before: Bytes, line: Bytes, rest: Bytes)
    requires Split([], before).partial == [] && forall i :: 0 <= i < |line| ==> line[i] != 10
    ensures RecordsOf(decode, Split([], before + (line + [10] + rest)).lines)
            == RecordsOf(decode, Split([], before).lines)
               + (if 1 <= |line| <= 256 * 1024 && decode(line).Some? then [decode(line).value] else [])
               + RecordsOf(decode, Split([], rest).lines)
  {
    SplitConcat([], before, line + [10] + rest);
    SplitWholeLine(line, rest);
    var first, later := Split([], before).lines, Split([], rest).lines;
    RecordsConcat(decode, first, [line] + later);
    assert ([line] + later)[1..] == later;
    Regroup(RecordsOf(decode, first), RecordOf(decode, line), RecordsOf(decode, later));
  }

  lemma Regroup<R>(a: seq<R>, b: seq<R>, c: seq<R>)
    ensures a + (b + c) == a + b + c
  {
  }

  /** An unfinished last line counts for nothing yet. */
  lemma UnfinishedCountsNothing<R>(decode: Decode<R>, before: Bytes, line: Bytes)
    requires Split([], before).partial == [] && forall i :: 0 <= i < |line| ==> line[i] != 10
    ensures RecordsOf(decode, Split([], before + line).lines) == RecordsOf(decode, Split([], before).lines)
  {
    SplitConcat([], before, line);
    SplitLine([], line);
    assert Split([], before).lines + [] == Split([], before).lines;
  }

  // ---- Waiting for a control change ----

  /** The record behind the first one of our command. */
  predicate Follows(target: string, records: seq<Record>, r: Record) {
    exists i: nat :: FirstCommand(target, records, i) && i + 1 < |records| && records[i + 1] == r
  }

  lemma {:induction false} CommandOnce(target: string, records: seq<Record>, i: nat, j: nat)
    requires FirstCommand(target, records, i) && FirstCommand(target, records, j)
    ensures i == j
  {
  }

  /**
   Reads within the bound: a model or effort change is confirmed by the record behind our command, or rejected by it,
   and a permission change by the first record that names a mode. Without such a record nothing is confirmed.
   */
  lemma AwaitExactly(decode: Decode<Record>, kind: Kind, target: string, growths: seq<Bytes>)
    requires forall i :: 0 <= i < |growths| ==> |growths[i]| <= 512 * 1024
    ensures var answer := AwaitFrom(decode, kind, target, [], false, growths);
            var records := RecordsOf(decode, Split([], Flat(growths)).lines);
            if kind.Permission? then
              && (forall i: nat :: FirstText(records, i) ==>
                    answer == if records[i].permission.value.mode == target then Ok(()) else Err(ControlRejected))
              && ((forall i :: 0 <= i < |records| ==> !HasText(records[i])) ==> answer == Err(Unconfirmed))
            else
              && (forall r :: Follows(target, records, r) ==>
                    answer == if r.stdout && r.confirms then Ok(()) else Err(ControlRejected))
              && ((forall r :: !Follows(target, records, r)) ==> answer == Err(Unconfirmed))
  {
    ReadsDecideWhole(decode, kind, target, [], false, growths);
    var records := RecordsOf(decode, Split([], Flat(growths)).lines);
    if kind.Permission? {
      forall i: nat | FirstText(records, i)
        ensures JudgeAll(kind, target, Looking(false), records)
                == Decided(if records[i].permission.value.mode == target then Success else Rejected)
      {
        FirstModeDecides(target, records, i);
      }
      if forall i :: 0 <= i < |records| ==> !HasText(records[i]) {
        PermissionSkips(target, records);
      }
    } else if k: nat :| k < |records| && records[k].args == Some(target) {
      var i := FirstCommandExists(target, records, k);
      FirstCommandDecides(kind, target, records, i);
      forall r | Follows(target, records, r)
        ensures i + 1 < |records| && records[i + 1] == r
      {
        var j: nat :| FirstCommand(target, records, j) && j + 1 < |records| && records[j + 1] == r;
        CommandOnce(target, records, i, j);
      }
      assert i + 1 < |records| ==> Follows(target, records, records[i + 1]);
    } else {
      LookingSkips(kind, target, records);
    }
  }

  /** A read beyond the bound ends the wait; what was decided before it stands. */
  lemma {:induction false} TooMuchEndsTheWait(decode: Decode<Record>, kind: Kind, target: string, partial: Bytes,
                                              matched: bool, growths: seq<Bytes>, k: nat)
    requires k < |growths| && |growths[k]| > 512 * 1024
    ensures AwaitFrom(decode, kind, target, partial, matched, growths) ==
            AwaitFrom(decode, kind, target, partial, matched, growths[..k])
    decreases k
  {
    if k > 0 && |growths[0]| <= MAX_GROWTH {
      var cut := Split(partial, growths[0]);
      var p := JudgeAll(kind, target, Looking(matched), RecordsOf(decode, cut.lines));
      assert growths[..k][1..] == growths[1..][..k - 1] && growths[..k][0] == growths[0];
      if p.Looking? {
        TooMuchEndsTheWait(decode, kind, target, cut.partial, p.matched, growths[1..], k - 1);
      }
    }
  }

  // ---- Reports ----

  /** A report that a control has a value now. */
  type Report = (Kind, string)

  function ValueOf(c: Controls, kind: Kind): Option<string> {
    match kind
    case Permission => Some(c.permission)
    case Model => c.model
    case Effort => c.effort
  }

  /**
   The command whose output would come next, `i` rows on: context reports do not count, all other rows end the wait.
   */
  function AwaitedAt(rows: seq<Row>, i: nat, before: Option<Report>): Option<Report>
    requires i <= |rows|
  {
    if i == 0 then before
    else
      match rows[i - 1]
      case ContextRow(_) => AwaitedAt(rows, i - 1, before)
      case CommandRow(kind, args) => if args.Some? then Some((kind, args.value)) else None
      case ModeRow(_) => None
      case TextRow(_) => None
  }

  /** `row` is the output of the awaited command and says that the model, or the effort, is `value` now. */
  predicate Confirms(g: Grammar, awaited: Option<Report>, content: string, kind: Kind, value: string) {
    && awaited.Some? && g.isOutput(content) && awaited.value.0 == kind
    && match kind
       case Model => g.saysModel(content) && Some(value) == if awaited.value.1 == "" then g.modelOf(content)
           else Some(awaited.value.1)
       case Effort => g.saysEffort(content) && g.mentions(content, awaited.value.1) && value == awaited.value.1
       case Permission => false
  }

  /** Row `i` reports that the control is `value`. */
  predicate Says(g: Grammar, cycle: seq<string>, rows: seq<Row>, i: nat, before: Option<Report>, kind: Kind,
                 value: string)
    requires i < |rows|
  {
    match rows[i]
    case ModeRow(mode) =>
      kind.Permission? && mode.Some? && value in cycle && value == if mode.value == "manual" then "default"
      else mode.value
    case ContextRow(model) => kind.Model? && model == Some(value)
    case CommandRow(_, _) => false
    case TextRow(content) => Confirms(g, AwaitedAt(rows, i, before), content, kind, value)
  }

  /** The control is `value` after the rows because row `i` says so and none after it reports on this control. */
  ghost predicate SaidLast(g: Grammar, cycle: seq<string>, rows: seq<Row>, before: Option<Report>, kind: Kind,
                           value: string) {
    exists i :: 0 <= i < |rows| && Says(g, cycle, rows, i, before, kind, value) &&
      SilentFrom(g, cycle, rows, i + 1, before, kind)
  }

  ghost predicate SilentFrom(g: Grammar, cycle: seq<string>, rows: seq<Row>, i: nat, before: Option<Report>,
                             kind: Kind) {
    forall j, v :: i <= j < |rows| ==> !Says(g, cycle, rows, j, before, kind, v)
  }

  lemma {:induction false} AwaitedPrefix(rows: seq<Row>, r: Row, i: nat, before: Option<Report>)
    requires i <= |rows|
    ensures AwaitedAt(rows + [r], i, before) == AwaitedAt(rows, i, before)
    decreases i
  {
    if i > 0 {
      assert (rows + [r])[i - 1] == rows[i - 1];
      AwaitedPrefix(rows, r, i - 1, before);
    }
  }

  lemma SaysPrefix(g: Grammar, cycle: seq<string>, rows: seq<Row>, r: Row, i: nat, before: Option<Report>, kind: Kind,
                   value: string)
    requires i < |rows|
    ensures Says(g, cycle, rows + [r], i, before, kind, value) == Says(g, cycle, rows, i, before, kind, value)
  {
    AwaitedPrefix(rows, r, i, before);
    assert (rows + [r])[i] == rows[i];
  }

  /** A control takes the value that the row reports for it, and stays as it is when it reports none. */
  lemma RowAdopts(g: Grammar, cycle: seq<string>, c: Controls, rows: seq<Row>, r: Row, before: Option<Report>,
                  kind: Kind)
    requires c.pending == AwaitedAt(rows, |rows|, before)
    ensures var all, c' := rows + [r], AdoptRow(g, cycle, c, r);
            && c'.pending == AwaitedAt(all, |all|, before)
            && (forall v :: Says(g, cycle, all, |rows|, before, kind, v) ==> ValueOf(c', kind) == Some(v))
            && ((forall v :: !Says(g, cycle, all, |rows|, before, kind, v)) ==> ValueOf(c', kind) == ValueOf(c, kind))
  {
    AwaitedPrefix(rows, r, |rows|, before);
    var all := rows + [r];
    assert all[|rows|] == r;
    AwaitedNext(rows, r, before);
    match r {
      case ModeRow(mode) =>
        if mode.Some? && P.Normal(mode.value) in cycle {
          assert Says(g, cycle, all, |rows|, before, Permission, P.Normal(mode.value));
        }
      case ContextRow(model) =>
        if model.Some? { assert Says(g, cycle, all, |rows|, before, Model, model.value); }
      case CommandRow(_, _) =>
      case TextRow(content) => AnswerAdopts(g, cycle, c, all, content, before);
    }
  }

  lemma AwaitedNext(rows: seq<Row>, r: Row, before: Option<Report>)
    ensures AwaitedAt(rows + [r], |rows| + 1, before) ==
            match r
            case ContextRow(_) => AwaitedAt(rows, |rows|, before)
            case CommandRow(kind, args) => (if args.Some? then Some((kind, args.value)) else None)
            case ModeRow(_) => None
            case TextRow(_) => None
  {
    AwaitedPrefix(rows, r, |rows|, before);
    assert (rows + [r])[|rows|] == r;
  }

  lemma AnswerAdopts(g: Grammar, cycle: seq<string>, c: Controls, all: seq<Row>, content: string,
                     before: Option<Report>)
    requires all != [] && all[|all| - 1] == TextRow(content) && c.pending == AwaitedAt(all, |all| - 1, before)
    ensures var c', i := AdoptRow(g, cycle, c, TextRow(content)), |all| - 1;
            forall kind, v :: Says(g, cycle, all, i, before, kind, v) ==> ValueOf(c', kind) == Some(v)
    ensures var c', i := AdoptRow(g, cycle, c, TextRow(content)), |all| - 1;
            forall kind :: ValueOf(c', kind) != ValueOf(c, kind) ==>
              exists v :: Says(g, cycle, all, i, before, kind, v)
  {
    var c', i := AdoptRow(g, cycle, c, TextRow(content)), |all| - 1;
    forall kind, v | Says(g, cycle, all, i, before, kind, v) ensures ValueOf(c', kind) == Some(v) {
      assert Confirms(g, c.pending, content, kind, v);
    }
    forall kind | ValueOf(c', kind) != ValueOf(c, kind) ensures exists v :: Says(g, cycle, all, i, before, kind, v) {
      assert ValueOf(c', kind).Some?;
      assert Confirms(g, c.pending, content, kind, ValueOf(c', kind).value);
      assert Says(g, cycle, all, i, before, kind, ValueOf(c', kind).value);
    }
  }

  /** The control is what the last report on it says, or still what it was when there is none. */
  ghost predicate Recorded(g: Grammar, cycle: seq<string>, rows: seq<Row>, before: Option<Report>, kind: Kind,
                           was: Option<string>, now: Option<string>) {
    if SilentFrom(g, cycle, rows, 0, before, kind) then now == was
    else now.Some? && SaidLast(g, cycle, rows, before, kind, now.value)
  }

  lemma RecordedNext(g: Grammar, cycle: seq<string>, rows: seq<Row>, r: Row, before: Option<Report>, kind: Kind,
                     was: Option<string>, mid: Option<string>, now: Option<string>)
    requires Recorded(g, cycle, rows, before, kind, was, mid)
    requires forall v :: Says(g, cycle, rows + [r], |rows|, before, kind, v) ==> now == Some(v)
    requires (forall v :: !Says(g, cycle, rows + [r], |rows|, before, kind, v)) ==> now == mid
    ensures Recorded(g, cycle, rows + [r], before, kind, was, now)
  {
    var all := rows + [r];
    forall i, v | 0 <= i < |rows|
      ensures Says(g, cycle, all, i, before, kind, v) == Says(g, cycle, rows, i, before, kind, v)
    {
      SaysPrefix(g, cycle, rows, r, i, before, kind, v);
    }
    if v :| Says(g, cycle, all, |rows|, before, kind, v) {
      assert SilentFrom(g, cycle, all, |rows| + 1, before, kind);
      assert SaidLast(g, cycle, all, before, kind, v);
    } else if SilentFrom(g, cycle, rows, 0, before, kind) {
      assert SilentFrom(g, cycle, all, 0, before, kind);
    } else {
      var i :| 0 <= i < |rows| && Says(g, cycle, rows, i, before, kind, mid.value) &&
          SilentFrom(g, cycle, rows, i + 1, before, kind);
      assert Says(g, cycle, all, i, before, kind, mid.value) && SilentFrom(g, cycle, all, i + 1, before, kind);
    }
  }

  /**
   After any rows every control is what the last row that reports on it says: a permission record of a mode of the
   cycle, a context report, or the output that directly follows a command and confirms it.
   */
  lemma {:induction false} LastReportIsRecorded(g: Grammar, cycle: seq<string>, c: Controls, rows: seq<Row>, kind: Kind)
    ensures AdoptAll(g, cycle, c, rows).pending == AwaitedAt(rows, |rows|, c.pending)
    ensures Recorded(g, cycle, rows, c.pending, kind, ValueOf(c, kind), ValueOf(AdoptAll(g, cycle, c, rows), kind))
    decreases |rows|
  {
    if rows != [] {
      var front, r := rows[..|rows| - 1], rows[|rows| - 1];
      assert rows == front + [r];
      LastReportIsRecorded(g, cycle, c, front, kind);
      AdoptConcat(g, cycle, c, front, [r]);
      var mid := AdoptAll(g, cycle, c, front);
      assert [r][1..] == [] && AdoptAll(g, cycle, mid, [r]) == AdoptRow(g, cycle, mid, r);
      RowAdopts(g, cycle, mid, front, r, c.pending, kind);
      RecordedNext(g, cycle, front, r, c.pending, kind, ValueOf(c, kind), ValueOf(mid, kind),
                   ValueOf(AdoptRow(g, cycle, mid, r), kind));
    }
  }

  // ---- Announcements ----

  /** A row changes at most one control, and what is announced is exactly that change. */
  lemma ChangesAreTold(g: Grammar, cycle: seq<string>, c: Controls, r: Row)
    ensures var c' := AdoptRow(g, cycle, c, r);
            && (forall kind :: ValueOf(c', kind) != ValueOf(c, kind) ==>
                  ValueOf(c', kind).Some? && c'.told == c.told + [(kind, ValueOf(c', kind).value)])
            && ((forall kind :: ValueOf(c', kind) == ValueOf(c, kind)) ==> c'.told == c.told)
  {
    var c' := AdoptRow(g, cycle, c, r);
    if forall kind :: ValueOf(c', kind) == ValueOf(c, kind) {
      assert ValueOf(c', Permission) == ValueOf(c, Permission);
      assert ValueOf(c', Model) == ValueOf(c, Model) && ValueOf(c', Effort) == ValueOf(c, Effort);
    }
  }

  /** The value that was announced last for the control, from entry `from` on. */
  function LastTold(told: seq<Report>, from: nat, kind: Kind): Option<string> {
    if |told| <= from then None
    else if told[|told| - 1].0 == kind then Some(told[|told| - 1].1)
    else LastTold(told[..|told| - 1], from, kind)
  }

  /** Whoever listens knows every control: it is what was announced last, or unchanged when nothing was. */
  lemma {:induction false} ListenersKnow(g: Grammar, cycle: seq<string>, c: Controls, rows: seq<Row>, kind: Kind)
    ensures var c' := AdoptAll(g, cycle, c, rows);
            && c.told <= c'.told
            && ValueOf(c', kind) == if LastTold(c'.told, |c.told|, kind).Some? then LastTold(c'.told, |c.told|, kind)
               else ValueOf(c, kind)
    decreases |rows|
  {
    if rows != [] {
      var front, r := rows[..|rows| - 1], rows[|rows| - 1];
      assert rows == front + [r];
      ListenersKnow(g, cycle, c, front, kind);
      AdoptConcat(g, cycle, c, front, [r]);
      var mid := AdoptAll(g, cycle, c, front);
      assert [r][1..] == [] && AdoptAll(g, cycle, mid, [r]) == AdoptRow(g, cycle, mid, r);
      ChangesAreTold(g, cycle, mid, r);
      ToldNext(c, mid, AdoptRow(g, cycle, mid, r), kind);
    }
  }

  lemma ToldNext(c: Controls, mid: Controls, c': Controls, kind: Kind)
    requires c.told <= mid.told
    requires ValueOf(mid, kind) == if LastTold(mid.told, |c.told|, kind).Some? then LastTold(mid.told, |c.told|, kind)
             else ValueOf(c, kind)
    requires forall k :: ValueOf(c', k) != ValueOf(mid, k) ==>
               ValueOf(c', k).Some? && c'.told == mid.told + [(k, ValueOf(c', k).value)]
    requires (forall k :: ValueOf(c', k) == ValueOf(mid, k)) ==> c'.told == mid.told
    ensures c.told <= c'.told
    ensures ValueOf(c', kind) == if LastTold(c'.told, |c.told|, kind).Some? then LastTold(c'.told, |c.told|, kind)
            else ValueOf(c, kind)
  {
    if k :| ValueOf(c', k) != ValueOf(mid, k) {
      assert c'.told[..|c'.told| - 1] == mid.told;
    }
  }

  // ---- One step of the permission cycle ----

  /** The output since the key press names another mode of the cycle. */
  predicate Shows(cycle: seq<string>, previous: string, p: Poll, mode: string) {
    p.shown == Some(mode) && mode != previous && mode in cycle
  }

  /** Row `i` is the first permission record that names a mode of the cycle, and this is `mode`. */
  ghost predicate NamedFirst(cycle: seq<string>, rows: seq<Row>, i: nat, mode: string) {
    && i < |rows| && NamesMode(cycle, rows[i], mode)
    && forall j, m :: 0 <= j < i ==> !NamesMode(cycle, rows[j], m)
  }

  predicate NamesMode(cycle: seq<string>, r: Row, mode: string) {
    r.ModeRow? && r.mode.Some? && mode in cycle && mode == if r.mode.value == "manual" then "default" else r.mode.value
  }

  lemma {:induction false} FirstModeIs(cycle: seq<string>, rows: seq<Row>)
    ensures FirstMode(cycle, rows).Some? ==> exists i: nat :: NamedFirst(cycle, rows, i, FirstMode(cycle, rows).value)
    ensures FirstMode(cycle, rows).None? ==> forall i, m :: 0 <= i < |rows| ==> !NamesMode(cycle, rows[i], m)
  {
    if rows != [] {
      FirstModeIs(cycle, rows[1..]);
      if ModeOf(cycle, rows[0]).Some? {
        assert NamedFirst(cycle, rows, 0, FirstMode(cycle, rows).value);
      } else if FirstMode(cycle, rows).Some? {
        var i: nat :| NamedFirst(cycle, rows[1..], i, FirstMode(cycle, rows).value);
        forall j, m | 0 <= j < i + 1 ensures !NamesMode(cycle, rows[j], m) {
          if j > 0 { assert rows[1..][j - 1] == rows[j]; }
        }
        assert NamedFirst(cycle, rows, i + 1, FirstMode(cycle, rows).value);
      } else {
        forall i, m | 0 <= i < |rows| ensures !NamesMode(cycle, rows[i], m) {
          if i > 0 { assert rows[1..][i - 1] == rows[i]; }
        }
      }
    }
  }

  /** The growths of the first `k` polls, those beyond 512 KiB left out. */
  function ReadOf(polls: seq<Poll>, k: nat): Bytes
    requires k <= |polls|
  {
    if k == 0 then [] else ReadOf(polls, k - 1) + if |polls[k - 1].growth| <= 512 * 1024 then polls[k - 1].growth
       else []
  }

  /** No output confirms in the first `k` polls. */
  ghost predicate Unshown(cycle: seq<string>, previous: string, polls: seq<Poll>, k: nat)
    requires k <= |polls|
  {
    forall i, m :: 0 <= i < k ==> !Shows(cycle, previous, polls[i], m)
  }

  /** The step reads the first `k` polls: up to the one whose output confirms, or all of them. */
  ghost predicate ReadsUntil(cycle: seq<string>, previous: string, polls: seq<Poll>, k: nat) {
    k <= |polls| && Unshown(cycle, previous, polls, k) &&
    (k < |polls| ==> exists m :: Shows(cycle, previous, polls[k], m))
  }

  lemma {:induction false} ReadOfRest(polls: seq<Poll>, k: nat)
    requires 0 < k <= |polls|
    ensures ReadOf(polls, k) == (if |polls[0].growth| <= 512 * 1024 then polls[0].growth else []) +
            ReadOf(polls[1..], k - 1)
    decreases k
  {
    if k > 1 {
      ReadOfRest(polls, k - 1);
      assert polls[1..][k - 2] == polls[k - 1];
      var first := if |polls[0].growth| <= 512 * 1024 then polls[0].growth else [];
      var last := if |polls[k - 1].growth| <= 512 * 1024 then polls[k - 1].growth else [];
      Regroup(first, ReadOf(polls[1..], k - 2), last);
    } else {
      assert ReadOf(polls, 0) == [] && ReadOf(polls[1..], 0) == [];
    }
  }

  lemma {:induction false} ReadsUntilIs(cycle: seq<string>, previous: string, polls: seq<Poll>, k: nat)
    requires ReadsUntil(cycle, previous, polls, k)
    ensures ReadBefore(cycle, previous, polls) == ReadOf(polls, k)
    ensures ShownMode(cycle, previous, polls) == if k < |polls| then polls[k].shown else None
    decreases |polls|
  {
    if k > 0 {
      assert !Shows(cycle, previous, polls[0], polls[0].shown.GetOr(previous));
      forall i, m | 0 <= i < k - 1 ensures !Shows(cycle, previous, polls[1..][i], m) {
        assert polls[1..][i] == polls[i + 1];
      }
      if k < |polls| { assert polls[1..][k - 1] == polls[k]; }
      ReadsUntilIs(cycle, previous, polls[1..], k - 1);
      ReadOfRest(polls, k);
    }
  }

  /**
   One step: it reads until its output names another mode of the cycle than the one before. If a permission record
   in what it has read names a mode of the cycle, the first one is the answer; else what the output names; else none.
   */
  lemma StepExactly(decode: Decode<Row>, cycle: seq<string>, previous: string, polls: seq<Poll>, k: nat)
    requires ReadsUntil(cycle, previous, polls, k)
    ensures var answer := TranscriptWatch.StepFrom(decode, cycle, previous, [], polls);
            var rows := RowsIn(decode, [], ReadOf(polls, k));
            if exists i, m :: 0 <= i < |rows| && NamesMode(cycle, rows[i], m)
            then answer.Ok? && exists i: nat :: NamedFirst(cycle, rows, i, answer.value)
            else if k < |polls| then answer.Ok? && Shows(cycle, previous, polls[k], answer.value)
            else answer == Err(Unconfirmed)
  {
    StepReadsWhole(decode, cycle, previous, [], polls);
    ReadsUntilIs(cycle, previous, polls, k);
    FirstModeIs(cycle, RowsIn(decode, [], ReadOf(polls, k)));
  }
}
