/**
 Confirming a control change from the transcript: the file is read in whatever pieces have been
 written, cut into lines with the last one carried over, and the records of the lines decide.
 */
module TranscriptControl {
  import opened Common
  import opened OutputTails

  const NEWLINE: Byte := 10
  const MAX_LINE := 256 * 1024
  const MAX_GROWTH := 512 * 1024

  datatype Kind = Model | Effort | Permission

  /** `permissionMode` of a permission record; the field may hold anything. */
  datatype Mode = NotText | Text(mode: string)

  /**
   What the decision looks at. For a model or effort change `args` are the arguments of a command envelope of
   that kind, `stdout` says that the content starts a command's output and `confirms` that this
   output reports the change to the target.
   */
  datatype Record = Record(permission: Option<Mode>, args: Option<string>, stdout: bool, confirms: bool)

  /** JSON: undecodable lines and values that are no objects give nothing. */
  type Decode<R> = Bytes -> Option<R>

  datatype Outcome = Success | Rejected

  /** Still looking, having seen our command or not; or decided. */
  datatype Progress = Looking(matched: bool) | Decided(outcome: Outcome)

  function Judge(kind: Kind, target: string, p: Progress, r: Record): Progress {
    if p.Decided? then p
    else if kind.Permission? then
      if r.permission.None? || r.permission.value.NotText? then p
      else if r.permission.value.mode == target then Decided(Success)
      else Decided(Rejected)
    else if !p.matched then Looking(r.args == Some(target))
    else if r.stdout && r.confirms then Decided(Success)
    else Decided(Rejected)
  }

  function JudgeAll(kind: Kind, target: string, p: Progress, records: seq<Record>): Progress
    decreases |records|
  {
    if records == [] then p else JudgeAll(kind, target, Judge(kind, target, p, records[0]), records[1..])
  }

  // ---- Lines ----

  datatype Cut = Cut(lines: seq<Bytes>, partial: Bytes)

  /** `(partial + data).split(b"\n")`, the last piece apart. */
  function Split(partial: Bytes, data: Bytes): Cut
    decreases |data|
  {
    if data == [] then Cut([], partial)
    else if data[0] == NEWLINE then
      var rest := Split([], data[1..]);
      Cut([partial] + rest.lines, rest.partial)
    else Split(partial + [data[0]], data[1..])
  }

  function RecordOf<R>(decode: Decode<R>, line: Bytes): seq<R> {
    if line == [] || |line| > MAX_LINE || decode(line).None? then [] else [decode(line).value]
  }

  function RecordsOf<R>(decode: Decode<R>, lines: seq<Bytes>): seq<R> {
    if lines == [] then [] else RecordOf(decode, lines[0]) + RecordsOf(decode, lines[1..])
  }

  lemma {:induction false} SplitConcat(partial: Bytes, a: Bytes, b: Bytes)
    ensures var first := Split(partial, a);
            var second := Split(first.partial, b);
            Split(partial, a + b) == Cut(first.lines + second.lines, second.partial)
    decreases |a|
  {
    if a == [] {
      assert a + b == b;
    } else {
      assert (a + b)[0] == a[0] && (a + b)[1..] == a[1..] + b;
      if a[0] == NEWLINE {
        SplitConcat([], a[1..], b);
        var rest := Split([], a[1..]);
        var second := Split(rest.partial, b);
        assert [partial] + (rest.lines + second.lines) == [partial] + rest.lines + second.lines;
      } else {
        SplitConcat(partial + [a[0]], a[1..], b);
      }
    }
  }

  lemma {:induction false} RecordsConcat<R>(decode: Decode<R>, a: seq<Bytes>, b: seq<Bytes>)
    ensures RecordsOf(decode, a + b) == RecordsOf(decode, a) + RecordsOf(decode, b)
  {
    if a == [] {
      assert a + b == b;
    } else {
      assert (a + b)[1..] == a[1..] + b;
      RecordsConcat(decode, a[1..], b);
    }
  }

  lemma {:induction false} JudgeConcat(kind: Kind, target: string, p: Progress, a: seq<Record>, b: seq<Record>)
    ensures JudgeAll(kind, target, p, a + b) == JudgeAll(kind, target, JudgeAll(kind, target, p, a), b)
    decreases |a|
  {
    if a == [] {
      assert a + b == b;
    } else {
      assert (a + b)[1..] == a[1..] + b;
      JudgeConcat(kind, target, Judge(kind, target, p, a[0]), a[1..], b);
    }
  }

  lemma {:induction false} DecidedStays(kind: Kind, target: string, p: Progress, records: seq<Record>)
    requires p.Decided?
    ensures JudgeAll(kind, target, p, records) == p
  {
    if records != [] { DecidedStays(kind, target, p, records[1..]); }
  }

  // ---- Reading in pieces ----

  datatype Error = Unconfirmed | ControlRejected

  function Flat(growths: seq<Bytes>): Bytes {
    if growths == [] then [] else growths[0] + Flat(growths[1..])
  }

  /** The read loop; `growths` are the growths read before the deadline, empty where nothing was new. */
  function AwaitFrom(decode: Decode<Record>, kind: Kind, target: string, partial: Bytes, matched: bool,
                     growths: seq<Bytes>): Result<(), Error>
    decreases |growths|
  {
    if growths == [] then Err(Unconfirmed)
    else if |growths[0]| > MAX_GROWTH then Err(Unconfirmed)
    else
      var cut := Split(partial, growths[0]);
      match JudgeAll(kind, target, Looking(matched), RecordsOf(decode, cut.lines))
      case Decided(Success) => Ok(())
      case Decided(Rejected) => Err(ControlRejected)
      case Looking(m) => AwaitFrom(decode, kind, target, cut.partial, m, growths[1..])
  }

  predicate WithinBound(growths: seq<Bytes>) {
    forall i :: 0 <= i < |growths| ==> |growths[i]| <= MAX_GROWTH
  }

  /** What all the bytes together say. */
  function WholeOutcome(decode: Decode<Record>, kind: Kind, target: string, partial: Bytes, matched: bool,
                        bytes: Bytes): Result<(), Error> {
    match JudgeAll(kind, target, Looking(matched), RecordsOf(decode, Split(partial, bytes).lines))
    case Decided(Success) => Ok(())
    case Decided(Rejected) => Err(ControlRejected)
    case Looking(_) => Err(Unconfirmed)
  }

  /** The loop decides what the bytes say, wherever the reads cut them. */
  lemma {:induction false} ReadsDecideWhole(decode: Decode<Record>, kind: Kind, target: string, partial: Bytes,
                                            matched: bool, growths: seq<Bytes>)
    requires WithinBound(growths)
    ensures AwaitFrom(decode, kind, target, partial, matched, growths) ==
            WholeOutcome(decode, kind, target, partial, matched, Flat(growths))
    decreases |growths|
  {
    if growths != [] {
      var cut := Split(partial, growths[0]);
      var rest := Flat(growths[1..]);
      var later := Split(cut.partial, rest);
      SplitConcat(partial, growths[0], rest);
      RecordsConcat(decode, cut.lines, later.lines);
      var here, there := RecordsOf(decode, cut.lines), RecordsOf(decode, later.lines);
      JudgeConcat(kind, target, Looking(matched), here, there);
      var p := JudgeAll(kind, target, Looking(matched), here);
      if p.Decided? {
        DecidedStays(kind, target, p, there);
      } else {
        forall i | 0 <= i < |growths[1..]| ensures |growths[1..][i]| <= MAX_GROWTH {
          assert growths[1..][i] == growths[i + 1];
        }
        ReadsDecideWhole(decode, kind, target, cut.partial, p.matched, growths[1..]);
      }
    }
  }

  /** Two ways to read the same bytes give the same answer. */
  lemma ChoppingDoesNotMatter(decode: Decode<Record>, kind: Kind, target: string, one: seq<Bytes>, two: seq<Bytes>)
    requires WithinBound(one) && WithinBound(two) && Flat(one) == Flat(two)
    ensures AwaitFrom(decode, kind, target, [], false, one) == AwaitFrom(decode, kind, target, [], false, two)
  {
    ReadsDecideWhole(decode, kind, target, [], false, one);
    ReadsDecideWhole(decode, kind, target, [], false, two);
  }

  // ---- What an answer means ----

  /** Our command is at `i`, for the first time. */
  predicate FirstCommand(target: string, records: seq<Record>, i: nat) {
    i < |records| && records[i].args == Some(target) && forall k :: 0 <= k < i ==> records[k].args != Some(target)
  }

  lemma {:induction false} LookingSkips(kind: Kind, target: string, records: seq<Record>)
    requires !kind.Permission? && forall k :: 0 <= k < |records| ==> records[k].args != Some(target)
    ensures JudgeAll(kind, target, Looking(false), records) == Looking(false)
  {
    if records != [] { LookingSkips(kind, target, records[1..]); }
  }

  lemma FirstCommandDecides(kind: Kind, target: string, records: seq<Record>, i: nat)
    requires !kind.Permission? && FirstCommand(target, records, i)
    ensures JudgeAll(kind, target, Looking(false), records) ==
            if i + 1 == |records| then Looking(true)
            else if records[i + 1].stdout && records[i + 1].confirms then Decided(Success)
            else Decided(Rejected)
  {
    var rest := records[i + 1..];
    assert records == records[..i] + ([records[i]] + rest);
    LookingSkips(kind, target, records[..i]);
    JudgeConcat(kind, target, Looking(false), records[..i], [records[i]] + rest);
    assert ([records[i]] + rest)[1..] == rest;
    if rest != [] {
      DecidedStays(kind, target, Judge(kind, target, Looking(true), rest[0]), rest[1..]);
    }
  }

  lemma {:induction false} FirstCommandExists(target: string, records: seq<Record>, k: nat) returns (i: nat)
    requires k < |records| && records[k].args == Some(target)
    ensures i <= k && FirstCommand(target, records, i)
  {
    if j :| 0 <= j < k && records[j].args == Some(target) {
      i := FirstCommandExists(target, records, j);
    } else {
      i := k;
    }
  }

  /**
   A model or effort change succeeds exactly when the first record of our command is followed at once by its success
   output.
   */
  lemma SuccessIsAdjacent(kind: Kind, target: string, records: seq<Record>)
    requires !kind.Permission?
    ensures JudgeAll(kind, target, Looking(false), records) == Decided(Success) <==>
            exists i: nat :: FirstCommand(target, records, i) && i + 1 < |records| && records[i + 1].stdout &&
              records[i + 1].confirms
  {
    if i: nat :| FirstCommand(target, records, i) {
      FirstCommandDecides(kind, target, records, i);
    }
    if forall k :: 0 <= k < |records| ==> records[k].args != Some(target) {
      LookingSkips(kind, target, records);
    } else {
      var k :| 0 <= k < |records| && records[k].args == Some(target);
      var i := FirstCommandExists(target, records, k);
      FirstCommandDecides(kind, target, records, i);
    }
  }

  predicate FirstText(records: seq<Record>, i: nat) {
    i < |records| && HasText(records[i]) && forall k :: 0 <= k < i ==> !HasText(records[k])
  }

  predicate HasText(r: Record) {
    r.permission.Some? && r.permission.value.Text?
  }

  lemma {:induction false} PermissionSkips(target: string, records: seq<Record>)
    requires forall k :: 0 <= k < |records| ==> !HasText(records[k])
    ensures JudgeAll(Permission, target, Looking(false), records) == Looking(false)
  {
    if records != [] { PermissionSkips(target, records[1..]); }
  }

  /** A permission change is decided by the first permission record that names a mode. */
  lemma FirstModeDecides(target: string, records: seq<Record>, i: nat)
    requires FirstText(records, i)
    ensures JudgeAll(Permission, target, Looking(false), records)
         == Decided(if records[i].permission.value.mode == target then Success else Rejected)
  {
    var rest := records[i + 1..];
    assert records == records[..i] + ([records[i]] + rest);
    PermissionSkips(target, records[..i]);
    JudgeConcat(Permission, target, Looking(false), records[..i], [records[i]] + rest);
    assert ([records[i]] + rest)[1..] == rest;
    DecidedStays(Permission, target, Judge(Permission, target, Looking(false), records[i]), rest);
  }

  // ---- The loops ----

  /** `_control_records_outcome` */
  method ControlRecordsOutcome(records: seq<Record>, kind: Kind, target: string, matchedCommand: bool)
    returns (outcome: Option<Outcome>, matched: bool)
    ensures JudgeAll(kind, target, Looking(matchedCommand), records) == if outcome.Some? then Decided(outcome.value)
            else Looking(matched)
  {
    matched := matchedCommand;
    assert records[0..] == records;
    for i := 0 to |records|
      invariant JudgeAll(kind, target, Looking(matched), records[i..]) ==
                JudgeAll(kind, target, Looking(matchedCommand), records)
    {
      var record := records[i];
      assert records[i..][0] == record && records[i..][1..] == records[i + 1..];
      var p := Judge(kind, target, Looking(matched), record);
      if p.Decided? { DecidedStays(kind, target, p, records[i + 1..]); }
      if kind.Permission? {
        if record.permission.None? || record.permission.value.NotText? {
          continue;
        }
        if record.permission.value.mode == target {
          return Some(Success), matched;
        }
        return Some(Rejected), matched;
      }
      if !matched {
        if record.args == Some(target) {
          matched := true;
        }
        continue;
      }
      if record.stdout && record.confirms {
        return Some(Success), matched;
      }
      return Some(Rejected), matched;
    }
    return None, matched;
  }

  /** `_await_transcript_control`, for what is read before the deadline. */
  method AwaitTranscriptControl(decode: Decode<Record>, kind: Kind, target: string, growths: seq<Bytes>)
    returns (res: Result<(), Error>)
    ensures res == AwaitFrom(decode, kind, target, [], false, growths)
  {
    var partial: Bytes, matchedCommand := [], false;
    assert growths[0..] == growths;
    for i := 0 to |growths|
      invariant AwaitFrom(decode, kind, target, partial, matchedCommand, growths[i..]) ==
                AwaitFrom(decode, kind, target, [], false, growths)
    {
      assert growths[i..][0] == growths[i] && growths[i..][1..] == growths[i + 1..];
      if |growths[i]| > MAX_GROWTH {
        return Err(Unconfirmed);
      }
      var cut := Split(partial, growths[i]);
      var records := CollectRecords(decode, cut.lines);
      var outcome, matched := ControlRecordsOutcome(records, kind, target, matchedCommand);
      partial := cut.partial;
      matchedCommand := matched;
      if outcome == Some(Success) {
        return Ok(());
      }
      if outcome == Some(Rejected) {
        return Err(ControlRejected);
      }
    }
    return Err(Unconfirmed);
  }

  lemma RecordsNext<R>(decode: Decode<R>, lines: seq<Bytes>, i: nat)
    requires i < |lines|
    ensures RecordsOf(decode, lines[i..]) == RecordOf(decode, lines[i]) + RecordsOf(decode, lines[i + 1..])
  {
    assert lines[i..][0] == lines[i] && lines[i..][1..] == lines[i + 1..];
  }

  method CollectRecords<R>(decode: Decode<R>, lines: seq<Bytes>) returns (records: seq<R>)
    ensures records == RecordsOf(decode, lines)
  {
    records := [];
    assert lines[0..] == lines;
    for i := 0 to |lines|
      invariant records + RecordsOf(decode, lines[i..]) == RecordsOf(decode, lines)
    {
      var line := lines[i];
      RecordsNext(decode, lines, i);
      Regroup(records, RecordOf(decode, line), RecordsOf(decode, lines[i + 1..]));
      if line == [] || |line| > MAX_LINE {
        continue;
      }
      var record := decode(line);
      if record.None? {
        continue;
      }
      records := records + [record.value];
    }
  }
}
