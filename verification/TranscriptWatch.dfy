/**
 Two other readers of the growing transcript: the watcher, which adopts every control change it finds there,
 and one step of the permission cycle, which waits for the program's answer in its output or in the transcript.
 Both cut the file as it happens to grow; neither result depends on the cuts.
 */
module TranscriptWatch {
  import opened Common
  import opened OutputTails
  import opened TranscriptControl
  import P = PermissionCycle

  /**
   What a record is to these readers: a permission record, whose field may be no text; a context report with
   its model, if legal; a model or effort command with its arguments, if legal; or other content.
   */
  datatype Row =
    | ModeRow(mode: Option<string>)
    | ContextRow(model: Option<string>)
    | CommandRow(kind: Kind, args: Option<string>)
    | TextRow(content: string)

  /** The tests on content: a command's output, what it reports, the model it names, whether it mentions a target. */
  datatype Grammar = Grammar(
    isOutput: string -> bool, saysModel: string -> bool, saysEffort: string -> bool,
    modelOf: string -> Option<string>, mentions: (string, string) -> bool)

  /** What the session records, the command whose output is expected next, and every change it has announced. */
  datatype Controls = Controls(
    permission: string, model: Option<string>, effort: Option<string>,
    pending: Option<(Kind, string)>, told: seq<(Kind, string)>)

  function SetControl(c: Controls, kind: Kind, value: string): Controls {
    var current := match kind case Permission => Some(c.permission) case Model => c.model case Effort => c.effort;
    if current == Some(value) then c
    else
      var next := c.(told := c.told + [(kind, value)]);
      match kind
      case Permission => next.(permission := value)
      case Model => next.(model := Some(value))
      case Effort => next.(effort := Some(value))
  }

  /** The mode of a permission record, when the cycle has it. */
  function ModeOf(cycle: seq<string>, r: Row): Option<string> {
    if r.ModeRow? && r.mode.Some? && P.Normal(r.mode.value) in cycle then Some(P.Normal(r.mode.value)) else None
  }

  function AdoptRow(g: Grammar, cycle: seq<string>, c: Controls, r: Row): Controls {
    match r
    case ModeRow(_) =>
      var m := ModeOf(cycle, r);
      (if m.Some? then SetControl(c, Permission, m.value) else c).(pending := None)
    case ContextRow(m) => if m.Some? then SetControl(c, Model, m.value) else c
    case CommandRow(kind, args) => c.(pending := if args.Some? then Some((kind, args.value)) else None)
    case TextRow(content) => if c.pending.None? then c else Answered(g, c.(pending := None), c.pending.value, content)
  }

  /** The record right behind a command: its output, or nothing we wait for any longer. */
  function Answered(g: Grammar, c: Controls, command: (Kind, string), content: string): Controls {
    if !g.isOutput(content) then c
    else if command.0.Model? && g.saysModel(content) then
      var applied := if command.1 != "" then Some(command.1) else g.modelOf(content);
      if applied.Some? then SetControl(c, Model, applied.value) else c
    else if command.0.Effort? && g.saysEffort(content) && g.mentions(content, command.1)
            then SetControl(c, Effort, command.1)
    else c
  }

  function AdoptAll(g: Grammar, cycle: seq<string>, c: Controls, rows: seq<Row>): Controls
    decreases |rows|
  {
    if rows == [] then c else AdoptAll(g, cycle, AdoptRow(g, cycle, c, rows[0]), rows[1..])
  }

  lemma {:induction false} AdoptConcat(g: Grammar, cycle: seq<string>, c: Controls, a: seq<Row>, b: seq<Row>)
    ensures AdoptAll(g, cycle, c, a + b) == AdoptAll(g, cycle, AdoptAll(g, cycle, c, a), b)
    decreases |a|
  {
    if a == [] {
      assert a + b == b;
    } else {
      assert (a + b)[1..] == a[1..] + b;
      AdoptConcat(g, cycle, AdoptRow(g, cycle, c, a[0]), a[1..], b);
    }
  }

  // ---- The watcher ----

  /** A read finds some growth, empty where nothing is new, or that the file was replaced, cut or cannot be read. */
  datatype Read = Growth(bytes: Bytes) | Lost

  /** A growth beyond the bound is not read at all: observation starts anew behind it. */
  predicate Breaks(r: Read) {
    r.Lost? || |r.bytes| > MAX_GROWTH
  }

  function RowsIn(decode: Decode<Row>, partial: Bytes, data: Bytes): seq<Row> {
    RecordsOf(decode, Split(partial, data).lines)
  }

  function WatchFrom(decode: Decode<Row>, g: Grammar, cycle: seq<string>, partial: Bytes, c: Controls,
                     found: seq<Read>): Controls
    decreases |found|
  {
    if found == [] then c
    else if Breaks(found[0]) then WatchFrom(decode, g, cycle, [], c.(pending := None), found[1..])
    else
      var cut := Split(partial, found[0].bytes);
      WatchFrom(decode, g, cycle, cut.partial, AdoptAll(g, cycle, c, RecordsOf(decode, cut.lines)), found[1..])
  }

  /** The bytes between breaks, however they were read. */
  function Epochs(found: seq<Read>): (epochs: seq<Bytes>)
    ensures epochs != []
    decreases |found|
  {
    if found == [] then [[]]
    else
      var later := Epochs(found[1..]);
      if Breaks(found[0]) then [[]] + later else [found[0].bytes + later[0]] + later[1..]
  }

  /** Every epoch as one piece; a break forgets the unfinished line and the expected output. */
  function AdoptEpochs(decode: Decode<Row>, g: Grammar, cycle: seq<string>, partial: Bytes, c: Controls,
                       epochs: seq<Bytes>): Controls
    requires epochs != []
    decreases |epochs|
  {
    var adopted := AdoptAll(g, cycle, c, RowsIn(decode, partial, epochs[0]));
    if |epochs| == 1 then adopted else AdoptEpochs(decode, g, cycle, [], adopted.(pending := None), epochs[1..])
  }

  lemma RowsConcat(decode: Decode<Row>, partial: Bytes, a: Bytes, b: Bytes)
    ensures RowsIn(decode, partial, a + b) == RowsIn(decode, partial, a) + RowsIn(decode, Split(partial, a).partial, b)
  {
    SplitConcat(partial, a, b);
    RecordsConcat(decode, Split(partial, a).lines, Split(Split(partial, a).partial, b).lines);
  }

  /** The watcher records what the bytes of each epoch say, wherever the reads cut them. */
  lemma {:induction false} WatchReadsWhole(decode: Decode<Row>, g: Grammar, cycle: seq<string>, partial: Bytes,
                                           c: Controls, found: seq<Read>)
    ensures WatchFrom(decode, g, cycle, partial, c, found) == AdoptEpochs(decode, g, cycle, partial, c, Epochs(found))
    decreases |found|
  {
    if found == [] {
      assert RowsIn(decode, partial, []) == [];
    } else {
      var rest := found[1..];
      var later := Epochs(rest);
      if Breaks(found[0]) {
        assert RowsIn(decode, partial, []) == [];
        assert ([[]] + later)[1..] == later;
        WatchReadsWhole(decode, g, cycle, [], c.(pending := None), rest);
      } else {
        var data := found[0].bytes;
        var cut := Split(partial, data);
        WatchReadsWhole(decode, g, cycle, cut.partial, AdoptAll(g, cycle, c, RecordsOf(decode, cut.lines)), rest);
        RowsConcat(decode, partial, data, later[0]);
        AdoptConcat(g, cycle, c, RowsIn(decode, partial, data), RowsIn(decode, cut.partial, later[0]));
        assert Epochs(found)[1..] == later[1..];
      }
    }
  }

  /** Two ways to read the same epochs record the same controls and announce the same changes in the same order. */
  lemma WatchIgnoresCuts(decode: Decode<Row>, g: Grammar, cycle: seq<string>, c: Controls, one: seq<Read>,
                         two: seq<Read>)
    requires Epochs(one) == Epochs(two)
    ensures WatchFrom(decode, g, cycle, [], c, one) == WatchFrom(decode, g, cycle, [], c, two)
  {
    WatchReadsWhole(decode, g, cycle, [], c, one);
    WatchReadsWhole(decode, g, cycle, [], c, two);
  }

  function Growths(pieces: seq<Bytes>): seq<Read> {
    if pieces == [] then [] else [Growth(pieces[0])] + Growths(pieces[1..])
  }

  lemma {:induction false} GrowthsAreOneEpoch(pieces: seq<Bytes>)
    requires WithinBound(pieces)
    ensures Epochs(Growths(pieces)) == [Flat(pieces)]
  {
    if pieces != [] {
      forall i | 0 <= i < |pieces[1..]| ensures |pieces[1..][i]| <= MAX_GROWTH {
        assert pieces[1..][i] == pieces[i + 1];
      }
      GrowthsAreOneEpoch(pieces[1..]);
      assert Growths(pieces)[1..] == Growths(pieces[1..]);
    }
  }

  /** For every chopping of the same bytes into pieces within the bound, the watcher records the same. */
  lemma ChoppingIsInvisible(decode: Decode<Row>, g: Grammar, cycle: seq<string>, c: Controls, one: seq<Bytes>,
                            two: seq<Bytes>)
    requires WithinBound(one) && WithinBound(two) && Flat(one) == Flat(two)
    ensures WatchFrom(decode, g, cycle, [], c, Growths(one)) == WatchFrom(decode, g, cycle, [], c, Growths(two))
            == AdoptAll(g, cycle, c, RowsIn(decode, [], Flat(one)))
  {
    GrowthsAreOneEpoch(one);
    GrowthsAreOneEpoch(two);
    WatchReadsWhole(decode, g, cycle, [], c, Growths(one));
    WatchReadsWhole(decode, g, cycle, [], c, Growths(two));
  }

  // ---- Which mode is recorded ----

  function FirstMode(cycle: seq<string>, rows: seq<Row>): Option<string> {
    if rows == [] then None
    else if ModeOf(cycle, rows[0]).Some? then ModeOf(cycle, rows[0])
    else FirstMode(cycle, rows[1..])
  }

  function LastMode(cycle: seq<string>, rows: seq<Row>): Option<string> {
    if rows == [] then None
    else if LastMode(cycle, rows[1..]).Some? then LastMode(cycle, rows[1..])
    else ModeOf(cycle, rows[0])
  }

  /** The watcher ends with the last mode of the cycle that the rows name. */
  lemma {:induction false} WatchTakesLastMode(g: Grammar, cycle: seq<string>, c: Controls, rows: seq<Row>)
    ensures AdoptAll(g, cycle, c, rows).permission == LastMode(cycle, rows).GetOr(c.permission)
    decreases |rows|
  {
    if rows != [] {
      WatchTakesLastMode(g, cycle, AdoptRow(g, cycle, c, rows[0]), rows[1..]);
    }
  }

  lemma {:induction false} FirstModeConcat(cycle: seq<string>, a: seq<Row>, b: seq<Row>)
    ensures FirstMode(cycle, a + b) == if FirstMode(cycle, a).Some? then FirstMode(cycle, a) else FirstMode(cycle, b)
  {
    if a == [] {
      assert a + b == b;
    } else {
      assert (a + b)[1..] == a[1..] + b;
      FirstModeConcat(cycle, a[1..], b);
    }
  }

  lemma {:induction false} FirstModeInCycle(cycle: seq<string>, rows: seq<Row>)
    ensures FirstMode(cycle, rows).Some? ==> FirstMode(cycle, rows).value in cycle
  {
    if rows != [] {
      FirstModeInCycle(cycle, rows[1..]);
    }
  }

  // ---- One step of the permission cycle ----

  /**
   One round of the wait: the latest mode that the output since the key press names, then what the transcript has
   grown by.
   */
  datatype Poll = Poll(shown: Option<string>, growth: Bytes)

  predicate Confirms(cycle: seq<string>, previous: string, p: Poll) {
    p.shown.Some? && p.shown.value != previous && p.shown.value in cycle
  }

  /** A growth beyond the bound is an error that the step swallows. */
  function Readable(p: Poll): Bytes {
    if |p.growth| > MAX_GROWTH then [] else p.growth
  }

  function StepFrom(decode: Decode<Row>, cycle: seq<string>, previous: string, partial: Bytes,
                    polls: seq<Poll>): Result<string, Error>
    decreases |polls|
  {
    if polls == [] then Err(Unconfirmed)
    else if Confirms(cycle, previous, polls[0]) then Ok(polls[0].shown.value)
    else
      var cut := Split(partial, Readable(polls[0]));
      match FirstMode(cycle, RecordsOf(decode, cut.lines))
      case Some(mode) => Ok(mode)
      case None => StepFrom(decode, cycle, previous, cut.partial, polls[1..])
  }

  /** What has been read before the output confirms, and the mode it then names. */
  function ReadBefore(cycle: seq<string>, previous: string, polls: seq<Poll>): Bytes {
    if polls == [] || Confirms(cycle, previous, polls[0]) then []
       else Readable(polls[0]) + ReadBefore(cycle, previous, polls[1..])
  }

  function ShownMode(cycle: seq<string>, previous: string, polls: seq<Poll>): Option<string> {
    if polls == [] then None
    else if Confirms(cycle, previous, polls[0]) then polls[0].shown
    else ShownMode(cycle, previous, polls[1..])
  }

  /**
   A step answers with the first mode in the bytes it has read before its output confirms, and otherwise with its
   output.
   */
  lemma {:induction false} StepReadsWhole(decode: Decode<Row>, cycle: seq<string>, previous: string, partial: Bytes,
                                          polls: seq<Poll>)
    ensures var first := FirstMode(cycle, RowsIn(decode, partial, ReadBefore(cycle, previous, polls)));
            var shown := ShownMode(cycle, previous, polls);
            StepFrom(decode, cycle, previous, partial, polls)
            == if first.Some? then Ok(first.value) else if shown.Some? then Ok(shown.value) else Err(Unconfirmed)
    decreases |polls|
  {
    if polls == [] || Confirms(cycle, previous, polls[0]) {
      assert RowsIn(decode, partial, []) == [];
    } else {
      var data, later := Readable(polls[0]), ReadBefore(cycle, previous, polls[1..]);
      var cut := Split(partial, data);
      RowsConcat(decode, partial, data, later);
      FirstModeConcat(cycle, RowsIn(decode, partial, data), RowsIn(decode, cut.partial, later));
      StepReadsWhole(decode, cycle, previous, cut.partial, polls[1..]);
    }
  }

  /** Two ways to read the same bytes before the same output give the same answer. */
  lemma StepIgnoresCuts(decode: Decode<Row>, cycle: seq<string>, previous: string, one: seq<Poll>, two: seq<Poll>)
    requires ReadBefore(cycle, previous, one) == ReadBefore(cycle, previous, two)
    requires ShownMode(cycle, previous, one) == ShownMode(cycle, previous, two)
    ensures StepFrom(decode, cycle, previous, [], one) == StepFrom(decode, cycle, previous, [], two)
  {
    StepReadsWhole(decode, cycle, previous, [], one);
    StepReadsWhole(decode, cycle, previous, [], two);
  }

  /**
   The watcher reads the same bytes once the step is over. It leaves the mode of the step in place if and only if
   that is also the last mode of the cycle they name.
   */
  lemma StepAndWatchAgree(decode: Decode<Row>, g: Grammar, cycle: seq<string>, c: Controls, polls: seq<Poll>,
                          pieces: seq<Bytes>)
    requires WithinBound(pieces) && Flat(pieces) == ReadBefore(cycle, c.permission, polls)
    requires FirstMode(cycle, RowsIn(decode, [], Flat(pieces))).Some?
    ensures var mode := FirstMode(cycle, RowsIn(decode, [], Flat(pieces))).value;
            && StepFrom(decode, cycle, c.permission, [], polls) == Ok(mode)
            && (WatchFrom(decode, g, cycle, [], SetControl(c, Permission, mode), Growths(pieces)).permission == mode
                <==> LastMode(cycle, RowsIn(decode, [], Flat(pieces))) == Some(mode))
  {
    var rows := RowsIn(decode, [], Flat(pieces));
    var mode := FirstMode(cycle, rows).value;
    var set_ := SetControl(c, Permission, mode);
    StepReadsWhole(decode, cycle, c.permission, [], polls);
    ChoppingIsInvisible(decode, g, cycle, set_, pieces, pieces);
    WatchTakesLastMode(g, cycle, set_, rows);
    SomeModeIsLast(cycle, rows);
  }

  lemma {:induction false} SomeModeIsLast(cycle: seq<string>, rows: seq<Row>)
    ensures FirstMode(cycle, rows).Some? <==> LastMode(cycle, rows).Some?
  {
    if rows != [] {
      SomeModeIsLast(cycle, rows[1..]);
    }
  }

  /** A step that answers names a mode of the cycle. */
  lemma StepAnswersInCycle(decode: Decode<Row>, cycle: seq<string>, previous: string, polls: seq<Poll>)
    ensures var answer := StepFrom(decode, cycle, previous, [], polls);
            answer.Ok? ==> answer.value in cycle
  {
    StepReadsWhole(decode, cycle, previous, [], polls);
    FirstModeInCycle(cycle, RowsIn(decode, [], ReadBefore(cycle, previous, polls)));
    ShownInCycle(cycle, previous, polls);
  }

  lemma {:induction false} ShownInCycle(cycle: seq<string>, previous: string, polls: seq<Poll>)
    ensures ShownMode(cycle, previous, polls).Some? ==> ShownMode(cycle, previous, polls).value in cycle
  {
    if polls != [] {
      ShownInCycle(cycle, previous, polls[1..]);
    }
  }

  /** The replies of the program, as its steps read them. */
  ghost predicate ReadReplies(decode: Decode<Row>, cycle: seq<string>, replies: P.Replies) {
    forall n: nat :: exists previous, polls :: replies(n) == ReplyOf(StepFrom(decode, cycle, previous, [], polls))
  }

  function ReplyOf(answer: Result<string, Error>): Option<string> {
    if answer.Ok? then Some(answer.value) else None
  }

  /** Whatever output and transcript say, changing the permission mode ends within the length of the cycle. */
  lemma ReadStepsConverge(decode: Decode<Row>, bypassAllowed: bool, current: string, value: string, replies: P.Replies)
    requires ReadReplies(decode, P.Cycle(bypassAllowed), replies)
    ensures var a := P.SetMode(bypassAllowed, current, value, replies);
            a.result != Err(P.DidNotConverge) && a.steps <= |P.Cycle(bypassAllowed)|
  {
    var cycle := P.Cycle(bypassAllowed);
    forall n: nat ensures P.InCycle(cycle, replies, n) {
      var previous, polls :| replies(n) == ReplyOf(StepFrom(decode, cycle, previous, [], polls));
      StepAnswersInCycle(decode, cycle, previous, polls);
    }
    P.AlwaysConverges(bypassAllowed, current, value, replies);
  }

  // ---- The methods ----

  /** The control fields of a session. */
  class Session {
    const cycle: seq<string>
    var permission: string
    var model: Option<string>
    var effort: Option<string>
    var pending: Option<(Kind, string)>
    var told: seq<(Kind, string)>

    constructor (bypassAllowed: bool, permission: string)
      ensures cycle == P.Cycle(bypassAllowed) && Now() == Controls(permission, None, None, None, [])
    {
      this.cycle := P.Cycle(bypassAllowed);
      this.permission, model, effort, pending, told := permission, None, None, None, [];
    }

    ghost function Now(): Controls
      reads this
    {
      Controls(permission, model, effort, pending, told)
    }

    /** Records and announces a change, unless it is none. */
    method SetRuntimeControl(kind: Kind, value: string)
      modifies this
      ensures Now() == SetControl(old(Now()), kind, value)
    {
      match kind {
        case Permission =>
          if permission == value { return; }
          permission := value;
        case Model =>
          if model == Some(value) { return; }
          model := Some(value);
        case Effort =>
          if effort == Some(value) { return; }
          effort := Some(value);
      }
      told := told + [(kind, value)];
    }

    method AdoptTranscriptRecord(g: Grammar, row: Row)
      modifies this
      ensures Now() == AdoptRow(g, cycle, old(Now()), row)
    {
      match row {
        case ModeRow(_) =>
          var mode := ModeOf(cycle, row);
          if mode.Some? {
            SetRuntimeControl(Permission, mode.value);
          }
          pending := None;
        case ContextRow(named) =>
          if named.Some? {
            SetRuntimeControl(Model, named.value);
          }
        case CommandRow(kind, args) =>
          pending := if args.Some? then Some((kind, args.value)) else None;
        case TextRow(content) =>
          if pending.None? {
            return;
          }
          var (kind, target) := pending.value;
          pending := None;
          if !g.isOutput(content) {
            return;
          }
          if kind.Model? && g.saysModel(content) {
            var applied := if target != "" then Some(target) else g.modelOf(content);
            if applied.Some? {
              SetRuntimeControl(Model, applied.value);
            }
          } else if kind.Effort? && g.saysEffort(content) && g.mentions(content, target) {
            SetRuntimeControl(Effort, target);
          }
      }
    }

    /** `_adopt_transcript_records` */
    method AdoptTranscriptRecords(g: Grammar, rows: seq<Row>)
      modifies this
      ensures Now() == AdoptAll(g, cycle, old(Now()), rows)
    {
      assert rows[0..] == rows;
      for i := 0 to |rows|
        invariant AdoptAll(g, cycle, Now(), rows[i..]) == AdoptAll(g, cycle, old(Now()), rows)
      {
        assert rows[i..][0] == rows[i] && rows[i..][1..] == rows[i + 1..];
        AdoptTranscriptRecord(g, rows[i]);
      }
    }

    /** `_watch_transcript_controls`, for the reads it makes while no control change is in progress. */
    method WatchTranscriptControls(decode: Decode<Row>, g: Grammar, found: seq<Read>)
      modifies this
      ensures Now() == WatchFrom(decode, g, cycle, [], old(Now()), found)
    {
      var partial: Bytes := [];
      assert found[0..] == found;
      for i := 0 to |found|
        invariant WatchFrom(decode, g, cycle, partial, Now(), found[i..]) ==
                  WatchFrom(decode, g, cycle, [], old(Now()), found)
      {
        assert found[i..][0] == found[i] && found[i..][1..] == found[i + 1..];
        if Breaks(found[i]) {
          partial, pending := [], None;
          continue;
        }
        var cut := Split(partial, found[i].bytes);
        var rows := CollectRecords(decode, cut.lines);
        AdoptTranscriptRecords(g, rows);
        partial := cut.partial;
      }
    }

    /** `_run_permission_step`: the key press, the wait, and the recorded answer. */
    method RunPermissionStep(decode: Decode<Row>, polls: seq<Poll>) returns (applied: Result<string, Error>)
      modifies this
      ensures applied == StepFrom(decode, cycle, old(permission), [], polls)
      ensures Now() == if applied.Ok? then SetControl(old(Now()), Permission, applied.value) else old(Now())
    {
      applied := AwaitPermissionStep(decode, cycle, permission, polls);
      if applied.Ok? {
        SetRuntimeControl(Permission, applied.value);
      }
    }
  }

  /** `_await_permission_step`, for the rounds before its deadline. */
  method AwaitPermissionStep(decode: Decode<Row>, cycle: seq<string>, previous: string, polls: seq<Poll>)
    returns (applied: Result<string, Error>)
    ensures applied == StepFrom(decode, cycle, previous, [], polls)
  {
    var partial: Bytes := [];
    assert polls[0..] == polls;
    for i := 0 to |polls|
      invariant StepFrom(decode, cycle, previous, partial, polls[i..]) == StepFrom(decode, cycle, previous, [], polls)
    {
      assert polls[i..][0] == polls[i] && polls[i..][1..] == polls[i + 1..];
      if Confirms(cycle, previous, polls[i]) {
        return Ok(polls[i].shown.value);
      }
      var cut := Split(partial, Readable(polls[i]));
      partial := cut.partial;
      var mode := ModeInLines(decode, cycle, cut.lines);
      if mode.Some? {
        return Ok(mode.value);
      }
    }
    return Err(Unconfirmed);
  }

  /** The loop over the lines, which ends at the first mode of the cycle. */
  method ModeInLines(decode: Decode<Row>, cycle: seq<string>, lines: seq<Bytes>) returns (mode: Option<string>)
    ensures mode == FirstMode(cycle, RecordsOf(decode, lines))
  {
    assert lines[0..] == lines;
    for i := 0 to |lines|
      invariant FirstMode(cycle, RecordsOf(decode, lines[i..])) == FirstMode(cycle, RecordsOf(decode, lines))
    {
      var line := lines[i];
      RecordsNext(decode, lines, i);
      FirstModeConcat(cycle, RecordOf(decode, line), RecordsOf(decode, lines[i + 1..]));
      if line == [] || |line| > MAX_LINE {
        continue;
      }
      var row := decode(line);
      if row.None? {
        continue;
      }
      mode := ModeOf(cycle, row.value);
      if mode.Some? {
        return mode;
      }
    }
    return None;
  }
}
