/**
 What a broker session keeps of its terminal output: a bounded history that a new attachment gets as
 its snapshot, a bounded tail of plain text with cursors, and the queues of the attachments.
 */
module OutputTails {
  import opened Common

  newtype Byte = x: int | 0 <= x < 256

  type Bytes = seq<Byte>

  const QUEUE_FRAMES := 256
  const CONTROL_TAIL: nat := 16 * 1024

  function Suffix<T>(s: seq<T>, n: nat): (r: seq<T>)
    ensures |r| == if |s| <= n then |s| else n
  {
    if |s| <= n then s else s[|s| - n..]
  }

  function Concat(chunks: seq<Bytes>): Bytes {
    if chunks == [] then [] else chunks[0] + Concat(chunks[1..])
  }

  /** Trimming after every append keeps exactly the end of the whole stream. */
  lemma SuffixOfSuffix<T>(s: seq<T>, d: seq<T>, n: nat)
    ensures Suffix(Suffix(s, n) + d, n) == Suffix(s + d, n)
  {
    var left, right := Suffix(Suffix(s, n) + d, n), Suffix(s + d, n);
    assert |left| == |right|;
    forall k | 0 <= k < |left| ensures left[k] == right[k] {
      assert right[k] == (s + d)[|s + d| - |right| + k];
    }
  }

  lemma {:induction false} ConcatAppend(chunks: seq<Bytes>, chunk: Bytes)
    ensures Concat(chunks + [chunk]) == Concat(chunks) + chunk
  {
    if chunks == [] {
      assert Concat([chunk]) == chunk + Concat([]);
    } else {
      assert (chunks + [chunk])[1..] == chunks[1..] + [chunk];
      ConcatAppend(chunks[1..], chunk);
      assert chunks[0] + (Concat(chunks[1..]) + chunk) == chunks[0] + Concat(chunks[1..]) + chunk;
    }
  }

  // ---- The history ----

  class History {
    const limit: nat
    var chunks: seq<Bytes>
    var size: nat
    ghost var stream: Bytes

    ghost predicate Valid()
      reads this
    {
      Concat(chunks) == Suffix(stream, limit) && size == |Concat(chunks)|
    }

    constructor (limit: nat)
      ensures Valid() && this.limit == limit && stream == []
    {
      this.limit := limit;
      chunks, size, stream := [], 0, [];
    }

    /** After any output the deque concatenates to the last min(limit, total) bytes of the stream. */
    method Append(data: Bytes)
      requires Valid()
      modifies this
      ensures Valid() && stream == old(stream) + data
      ensures Concat(chunks) == Suffix(old(stream) + data, limit)
      ensures Concat(chunks) == stream[if |stream| <= limit then 0 else |stream| - limit..]
    {
      ghost var before := Concat(chunks);
      SuffixOfSuffix(stream, data, limit);
      stream := stream + data;
      if data == [] || limit == 0 {
        assert data == [] ==> before + data == before;
        return;
      }
      var kept := if |data| > limit then data[|data| - limit..] else data;
      ConcatAppend(chunks, kept);
      KeptIsEnough(before, data, limit);
      chunks := chunks + [kept];
      size := size + |kept|;
      Trim();
    }

    /** The loop that drops whole chunks from the front and cuts the last one that is too much. */
    method Trim()
      requires size == |Concat(chunks)|
      modifies this`chunks, this`size
      ensures Concat(chunks) == Suffix(old(Concat(chunks)), limit) && size == |Concat(chunks)|
    {
      ghost var full := Concat(chunks);
      while size > limit && chunks != []
        invariant size == |Concat(chunks)| <= |full| && (|full| > limit ==> size >= limit)
        invariant |full| <= limit ==> size == |full|
        invariant Concat(chunks) == full[|full| - size..]
        decreases size, |chunks|
      {
        var excess := size - limit;
        var first := chunks[0];
        DropFront(chunks, excess);
        if |first| <= excess {
          chunks := chunks[1..];
          size := size - |first|;
        } else {
          chunks := [first[excess..]] + chunks[1..];
          size := size - excess;
        }
        assert Concat(chunks) == full[|full| - size..];
      }
    }
  }

  lemma KeptIsEnough(before: Bytes, data: Bytes, limit: nat)
    ensures Suffix(before + Suffix(data, limit), limit) == Suffix(before + data, limit)
  {
  }

  lemma DropFront(chunks: seq<Bytes>, excess: nat)
    requires chunks != [] && excess <= |Concat(chunks)|
    ensures Concat(chunks[1..]) == Concat(chunks)[|chunks[0]|..]
    ensures excess <= |chunks[0]| ==> Concat([chunks[0][excess..]] + chunks[1..]) == Concat(chunks)[excess..]
  {
    if excess <= |chunks[0]| {
      var cut := [chunks[0][excess..]] + chunks[1..];
      assert cut[1..] == chunks[1..];
    }
  }

  // ---- The control tail ----

  class ControlTail {
    var tail: string
    var start: nat
    var total: nat
    ghost var stream: string

    ghost predicate Valid()
      reads this
    {
      && total == |stream| && start == |stream| - |tail| && tail == Suffix(stream, CONTROL_TAIL)
    }

    constructor ()
      ensures Valid() && stream == ""
    {
      tail, start, total, stream := "", 0, 0, "";
    }

    /** The cursor is where the new text starts in the stream. */
    method Append(plain: string) returns (cursor: nat)
      requires Valid()
      modifies this
      ensures Valid() && stream == old(stream) + plain
      ensures cursor == |old(stream)|
      ensures start == if |stream| <= 16384 then 0 else |stream| - 16384
    {
      SuffixOfSuffix(stream, plain, CONTROL_TAIL);
      cursor := total;
      tail := tail + plain;
      total := total + |plain|;
      stream := stream + plain;
      if |tail| > CONTROL_TAIL {
        var excess := |tail| - CONTROL_TAIL;
        tail := tail[excess..];
        start := start + excess;
      }
    }

    /** The stream from the cursor on, or from the oldest retained character when that is later. */
    method Since(cursor: nat) returns (s: string)
      requires Valid() && cursor <= total
      ensures start <= |stream|
      ensures s == stream[if cursor < start then start else cursor..]
      ensures |s| == total - (if cursor < start then start else cursor)
    {
      var offset := (if cursor < start then start else cursor) - start;
      s := tail[offset..];
    }
  }

  // ---- Attachments ----

  datatype Event = Output(data: Bytes) | Exit(code: int)

  /** `taken` is what the sender has read from the queue, `snapshot` what it was given at the start. */
  datatype Subscription = Subscription(owner: string, keyboard: bool, snapshot: Bytes, taken: Bytes,
                                       queue: seq<Event>, overflowed: bool)

  function Payload(queue: seq<Event>): Bytes {
    if queue == [] then []
    else (if queue[0].Output? then queue[0].data else []) + Payload(queue[1..])
  }

  function Received(s: Subscription): Bytes {
    s.snapshot + s.taken + Payload(s.queue)
  }

  /** All attachments ever made, the ones that are attached, and the keyboard's owner. */
  datatype Fan = Fan(subs: map<nat, Subscription>, live: set<nat>, keyboardOwner: Option<string>)

  function Unsubscribe(f: Fan, id: nat): Fan
    requires id in f.subs
  {
    if id !in f.live then f
    else Fan(f.subs, f.live - {id}, if f.keyboardOwner == Some(f.subs[id].owner) then None else f.keyboardOwner)
  }

  /** `put_nowait`: a full queue drops the attachment instead of the event. */
  function Put(f: Fan, id: nat, event: Event): Fan
    requires id in f.subs
  {
    var s := f.subs[id];
    if |s.queue| < QUEUE_FRAMES then f.(subs := f.subs[id := s.(queue := s.queue + [event])])
    else Unsubscribe(f.(subs := f.subs[id := s.(overflowed := true)]), id)
  }

  function Broadcast(f: Fan, ids: seq<nat>, event: Event): Fan
    requires forall i :: 0 <= i < |ids| ==> ids[i] in f.subs
    decreases |ids|
  {
    if ids == [] then f else Broadcast(Put(f, ids[0], event), ids[1..], event)
  }

  datatype State = State(tail: Bytes, fan: Fan, running: bool, stream: Bytes)

  datatype Op =
    | Read(data: Bytes, order: seq<nat>)
    | Ended(code: int, order: seq<nat>)
    | Subscribe(id: nat, owner: string, wantKeyboard: bool)
    | Detach(id: nat)
    | Take(id: nat)

  /** `tuple(self._subscribers)`: every attachment once, in some order. */
  predicate Enumerates(order: seq<nat>, live: set<nat>) {
    && (forall i, j :: 0 <= i < j < |order| ==> order[i] != order[j])
    && (forall i :: 0 <= i < |order| ==> order[i] in live)
    && (forall id :: id in live ==> id in order)
  }

  predicate Possible(st: State, op: Op) {
    && st.fan.live <= st.fan.subs.Keys
    && match op
       case Read(data, order) => st.running && data != [] && Enumerates(order, st.fan.live)
       case Ended(_, order) => st.running && Enumerates(order, st.fan.live)
       case Subscribe(id, _, _) => id !in st.fan.subs
       case Detach(id) => id in st.fan.subs
       case Take(id) => id in st.fan.subs && st.fan.subs[id].queue != []
  }

  function Taken(s: Subscription): Subscription
    requires s.queue != []
  {
    s.(taken := s.taken + (if s.queue[0].Output? then s.queue[0].data else []), queue := s.queue[1..])
  }

  function Step(limit: nat, st: State, op: Op): State
    requires Possible(st, op)
  {
    match op
    case Read(data, order) =>
      State(Suffix(st.tail + data, limit), Broadcast(st.fan, order, Output(data)), st.running, st.stream + data)
    case Ended(code, order) => State(st.tail, Broadcast(st.fan, order, Exit(code)), false, st.stream)
    case Subscribe(id, owner, wantKeyboard) =>
      if !st.running then st
      else
        var keyboard := wantKeyboard && st.fan.keyboardOwner.None?;
        st.(fan := Fan(st.fan.subs[id := Subscription(owner, keyboard, st.tail, [], [], false)], st.fan.live + {id},
                       if keyboard then Some(owner) else st.fan.keyboardOwner))
    case Detach(id) => st.(fan := Unsubscribe(st.fan, id))
    case Take(id) => st.(fan := st.fan.(subs := st.fan.subs[id := Taken(st.fan.subs[id])]))
  }

  ghost predicate Trace(limit: nat, st: State, ops: seq<Op>)
    decreases |ops|
  {
    ops == [] || (Possible(st, ops[0]) && Trace(limit, Step(limit, st, ops[0]), ops[1..]))
  }

  ghost function After(limit: nat, st: State, ops: seq<Op>): State
    requires Trace(limit, st, ops)
    decreases |ops|
  {
    if ops == [] then st else After(limit, Step(limit, st, ops[0]), ops[1..])
  }

  const FRESH := State([], Fan(map[], {}, None), true, [])

  // ---- Contiguous output ----

  predicate IsSuffix(x: Bytes, stream: Bytes) {
    |x| <= |stream| && stream[|stream| - |x|..] == x
  }

  predicate IsPiece(x: Bytes, stream: Bytes) {
    exists b :: 0 <= b <= |stream| && IsSuffix(x, stream[..b])
  }

  /** An attached client has the stream up to now; one that left has it up to some earlier point. */
  predicate Contiguous(s: Subscription, live: bool, stream: Bytes) {
    if live then IsSuffix(Received(s), stream) && !s.overflowed else IsPiece(Received(s), stream)
  }

  ghost predicate Good(limit: nat, st: State) {
    && st.tail == Suffix(st.stream, limit)
    && st.fan.live <= st.fan.subs.Keys
    && forall id :: id in st.fan.subs ==> Contiguous(st.fan.subs[id], id in st.fan.live, st.stream)
  }

  lemma {:induction false} PayloadAppend(queue: seq<Event>, event: Event)
    ensures Payload(queue + [event]) == Payload(queue) + (if event.Output? then event.data else [])
  {
    if queue == [] {
      assert [event][1..] == [];
    } else {
      assert (queue + [event])[1..] == queue[1..] + [event];
      PayloadAppend(queue[1..], event);
    }
  }

  lemma SuffixGrows(x: Bytes, stream: Bytes, data: Bytes)
    requires IsSuffix(x, stream)
    ensures IsSuffix(x + data, stream + data)
    ensures IsPiece(x, stream + data)
  {
    assert (stream + data)[..|stream|] == stream;
  }

  lemma PieceGrows(x: Bytes, stream: Bytes, data: Bytes)
    requires IsPiece(x, stream)
    ensures IsPiece(x, stream + data)
  {
    var b :| 0 <= b <= |stream| && IsSuffix(x, stream[..b]);
    assert (stream + data)[..b] == stream[..b];
  }

  function DataOf(event: Event): Bytes {
    if event.Output? then event.data else []
  }

  /** One attachment after the broadcast reached it. */
  lemma PutReaches(f: Fan, id: nat, event: Event, stream: Bytes)
    requires id in f.subs && id in f.live && Contiguous(f.subs[id], true, stream)
    ensures var f' := Put(f, id, event);
            && f'.subs.Keys == f.subs.Keys && f'.live <= f.live
            && Contiguous(f'.subs[id], id in f'.live, stream + DataOf(event))
            && (forall other :: other in f.subs && other != id ==>
                f'.subs[other] == f.subs[other] && (other in f'.live <==> other in f.live))
            && (id !in f'.live ==> f'.subs[id].overflowed)
  {
    var s := f.subs[id];
    PayloadAppend(s.queue, event);
    SuffixGrows(Received(s), stream, DataOf(event));
    assert s.snapshot + s.taken + (Payload(s.queue) + DataOf(event)) == Received(s) + DataOf(event);
    if |s.queue| >= QUEUE_FRAMES {
      assert Received(s.(overflowed := true)) == Received(s);
    }
  }

  lemma {:induction false} BroadcastReaches(f: Fan, ids: seq<nat>, event: Event, stream: Bytes)
    requires forall i :: 0 <= i < |ids| ==>
             ids[i] in f.subs && ids[i] in f.live && Contiguous(f.subs[ids[i]], true, stream)
    requires forall i, j :: 0 <= i < j < |ids| ==> ids[i] != ids[j]
    ensures var f' := Broadcast(f, ids, event);
            && f'.subs.Keys == f.subs.Keys && f'.live <= f.live
            && (forall id :: id in ids ==>
                id in f'.subs && Contiguous(f'.subs[id], id in f'.live, stream + DataOf(event)))
            && (forall id :: id in f.subs && id !in ids ==>
                f'.subs[id] == f.subs[id] && (id in f'.live <==> id in f.live))
            && (forall id :: id in f.live && id !in f'.live ==> id in f'.subs && f'.subs[id].overflowed)
    decreases |ids|
  {
    if ids != [] {
      var id, next := ids[0], Put(f, ids[0], event);
      PutReaches(f, id, event, stream);
      forall i | 0 <= i < |ids[1..]|
        ensures ids[1..][i] in next.subs && ids[1..][i] in next.live && Contiguous(next.subs[ids[1..][i]], true, stream)
      {
        assert ids[1..][i] == ids[i + 1] != id;
      }
      assert id !in ids[1..];
      assert forall k :: k in ids <==> k == id || k in ids[1..];
      BroadcastReaches(next, ids[1..], event, stream);
    }
  }

  lemma BroadcastKeepsGood(limit: nat, st: State, order: seq<nat>, event: Event, tail: Bytes, running: bool)
    requires Good(limit, st) && Enumerates(order, st.fan.live)
    requires tail == Suffix(st.stream + DataOf(event), limit)
    ensures Good(limit, State(tail, Broadcast(st.fan, order, event), running, st.stream + DataOf(event)))
  {
    BroadcastReaches(st.fan, order, event, st.stream);
    forall id | id in st.fan.subs && id !in order
      ensures Contiguous(st.fan.subs[id], false, st.stream + DataOf(event))
    {
      PieceGrows(Received(st.fan.subs[id]), st.stream, DataOf(event));
    }
  }

  lemma LeavingIsPiece(s: Subscription, stream: Bytes)
    requires IsSuffix(Received(s), stream)
    ensures IsPiece(Received(s), stream)
  {
    assert stream[..|stream|] == stream;
  }

  lemma TakenReceives(s: Subscription)
    requires s.queue != []
    ensures Received(Taken(s)) == Received(s)
  {
  }

  lemma StepKeepsGood(limit: nat, st: State, op: Op)
    requires Good(limit, st) && Possible(st, op)
    ensures Good(limit, Step(limit, st, op))
  {
    match op {
      case Read(data, order) =>
        SuffixOfSuffix(st.stream, data, limit);
        BroadcastKeepsGood(limit, st, order, Output(data), Suffix(st.tail + data, limit), st.running);
      case Ended(code, order) =>
        assert st.stream + [] == st.stream;
        BroadcastKeepsGood(limit, st, order, Exit(code), st.tail, false);
      case Subscribe(id, owner, wantKeyboard) =>
      case Detach(id) => if id in st.fan.live { LeavingIsPiece(st.fan.subs[id], st.stream); }
      case Take(id) => TakenReceives(st.fan.subs[id]);
    }
  }

  /**
   Every client has a contiguous piece of the stream: what it was given and what waits for it reach up to
   now while it is attached, and up to the point where it left otherwise.
   */
  lemma {:induction false} OutputHasNoGaps(limit: nat, st: State, ops: seq<Op>)
    requires Good(limit, st) && Trace(limit, st, ops)
    ensures Good(limit, After(limit, st, ops))
    decreases |ops|
  {
    if ops != [] {
      StepKeepsGood(limit, st, ops[0]);
      OutputHasNoGaps(limit, Step(limit, st, ops[0]), ops[1..]);
    }
  }

  /** Whoever was dropped without asking has the overflow flag. */
  ghost predicate DropsAreFlagged(st: State, asked: set<nat>) {
    forall id :: id in st.fan.subs && id !in st.fan.live && id !in asked ==> st.fan.subs[id].overflowed
  }

  function Asked(ops: seq<Op>): set<nat> {
    set op | op in ops && op.Detach? :: op.id
  }

  lemma StepFlagsDrops(limit: nat, st: State, op: Op, asked: set<nat>)
    requires Good(limit, st) && Possible(st, op) && DropsAreFlagged(st, asked)
    ensures DropsAreFlagged(Step(limit, st, op), asked + (if op.Detach? then {op.id} else {}))
  {
    match op {
      case Read(data, order) => BroadcastReaches(st.fan, order, Output(data), st.stream);
      case Ended(code, order) => BroadcastReaches(st.fan, order, Exit(code), st.stream);
      case _ =>
    }
  }

  lemma {:induction false} OnlyOverflowDrops(limit: nat, st: State, ops: seq<Op>, asked: set<nat>)
    requires Good(limit, st) && Trace(limit, st, ops) && DropsAreFlagged(st, asked)
    ensures DropsAreFlagged(After(limit, st, ops), asked + Asked(ops))
    decreases |ops|
  {
    if ops == [] {
      assert asked + Asked(ops) == asked;
    } else {
      var here := if ops[0].Detach? then {ops[0].id} else {};
      StepKeepsGood(limit, st, ops[0]);
      StepFlagsDrops(limit, st, ops[0], asked);
      OnlyOverflowDrops(limit, Step(limit, st, ops[0]), ops[1..], asked + here);
      assert ops == [ops[0]] + ops[1..];
      forall id | id in Asked(ops[1..]) + here ensures id in Asked(ops) {
        if id in Asked(ops[1..]) {
          var op :| op in ops[1..] && op.Detach? && op.id == id;
          assert op in ops;
        } else {
          assert ops[0] in ops;
        }
      }
    }
  }

  // ---- The keyboard ----

  predicate Holds(f: Fan, id: nat) {
    id in f.live && id in f.subs && f.subs[id].keyboard
  }

  /** At most one attached client has the keyboard, and it is the recorded owner. */
  ghost predicate KeyboardOk(f: Fan) {
    && (forall id :: Holds(f, id) ==> f.keyboardOwner == Some(f.subs[id].owner))
    && (forall a, b :: Holds(f, a) && Holds(f, b) ==> a == b)
    && (f.keyboardOwner.Some? ==> exists id :: Holds(f, id))
  }

  ghost predicate OwnersDiffer(f: Fan) {
    && f.live <= f.subs.Keys
    && forall a, b :: a in f.live && b in f.live && a != b ==> f.subs[a].owner != f.subs[b].owner
  }

  /**
   Detaching compares owners, not attachments. It keeps the keyboard with its holder exactly when the one that
   leaves is the holder or has another owner.
   */
  lemma DetachExact(f: Fan, id: nat)
    requires KeyboardOk(f) && f.live <= f.subs.Keys && id in f.live
    ensures KeyboardOk(Unsubscribe(f, id)) <==> f.subs[id].keyboard || f.keyboardOwner != Some(f.subs[id].owner)
  {
    var f' := Unsubscribe(f, id);
    if f.subs[id].keyboard {
      assert Holds(f, id);
      forall other | Holds(f', other) ensures false {
        assert Holds(f, other);
      }
    } else if f.keyboardOwner == Some(f.subs[id].owner) {
      var holder :| Holds(f, holder);
      assert Holds(f', holder) && f'.keyboardOwner == None;
    } else {
      forall other ensures Holds(f', other) <==> Holds(f, other) {}
      if f.keyboardOwner.Some? {
        var holder :| Holds(f, holder);
        assert Holds(f', holder);
      }
    }
  }

  /** With an owner used twice, one detach and one attach make two holders. */
  lemma SharedOwnerMakesTwoHolders(limit: nat, st: State, holder: nat, other: nat, fresh_: nat, owner: string)
    requires st.running && st.fan.live <= st.fan.subs.Keys && KeyboardOk(st.fan) && Holds(st.fan, holder)
    requires other in st.fan.live && !st.fan.subs[other].keyboard &&
             st.fan.subs[other].owner == st.fan.subs[holder].owner
    requires fresh_ !in st.fan.subs
    ensures Trace(limit, st, [Detach(other), Subscribe(fresh_, owner, true)])
    ensures var f := After(limit, st, [Detach(other), Subscribe(fresh_, owner, true)]).fan;
            Holds(f, holder) && Holds(f, fresh_) && holder != fresh_
  {
    var ops := [Detach(other), Subscribe(fresh_, owner, true)];
    assert ops[1..] == [Subscribe(fresh_, owner, true)] && ops[1..][1..] == [];
    var next := Step(limit, st, ops[0]);
    assert next.fan.keyboardOwner == None && Possible(next, ops[1]);
    assert After(limit, st, ops) == After(limit, next, ops[1..]) == Step(limit, next, ops[1]);
  }

  /** A new session comes there with four calls. */
  lemma TwoHoldersReached(limit: nat, shared: string, owner: string)
    ensures var ops := [Subscribe(0, shared, true), Subscribe(1, shared, true), Detach(1), Subscribe(2, owner, true)];
            Trace(limit, FRESH, ops) && Holds(After(limit, FRESH, ops).fan, 0) && Holds(After(limit, FRESH, ops).fan, 2)
  {
    var first, second := Subscribe(0, shared, true), Subscribe(1, shared, true);
    var rest := [Detach(1), Subscribe(2, owner, true)];
    var s1 := Step(limit, FRESH, first);
    var s2 := Step(limit, s1, second);
    assert Holds(s2.fan, 0) && !Holds(s2.fan, 1);
    SharedOwnerMakesTwoHolders(limit, s2, 0, 1, 2, owner);
    assert [first, second, rest[0], rest[1]][1..] == [second, rest[0], rest[1]] &&
           [second, rest[0], rest[1]][1..] == rest;
    assert Trace(limit, s1, [second, rest[0], rest[1]]) &&
           After(limit, s1, [second, rest[0], rest[1]]) == After(limit, s2, rest);
  }

  ghost predicate Fair(f: Fan) {
    KeyboardOk(f) && OwnersDiffer(f)
  }

  lemma UnsubscribeFair(f: Fan, id: nat)
    requires Fair(f) && id in f.subs
    ensures Fair(Unsubscribe(f, id))
  {
    if id in f.live {
      if f.keyboardOwner == Some(f.subs[id].owner) {
        var holder :| Holds(f, holder);
        assert holder == id;
      }
      DetachExact(f, id);
    }
  }

  /** Only owner and keyboard flag of an attachment matter. */
  lemma SameFair(f: Fan, id: nat, s: Subscription)
    requires Fair(f) && id in f.subs && s.owner == f.subs[id].owner && s.keyboard == f.subs[id].keyboard
    ensures Fair(f.(subs := f.subs[id := s]))
  {
    var f' := f.(subs := f.subs[id := s]);
    forall other ensures Holds(f', other) <==> Holds(f, other) {}
    if f.keyboardOwner.Some? {
      var holder :| Holds(f, holder);
      assert Holds(f', holder);
    }
  }

  lemma PutFair(f: Fan, id: nat, event: Event)
    requires Fair(f) && id in f.subs
    ensures Fair(Put(f, id, event)) && Put(f, id, event).subs.Keys == f.subs.Keys
  {
    var s := f.subs[id];
    SameFair(f, id, s.(queue := s.queue + [event]));
    SameFair(f, id, s.(overflowed := true));
    UnsubscribeFair(f.(subs := f.subs[id := s.(overflowed := true)]), id);
  }

  lemma {:induction false} BroadcastFair(f: Fan, ids: seq<nat>, event: Event)
    requires Fair(f) && forall i :: 0 <= i < |ids| ==> ids[i] in f.subs
    ensures Fair(Broadcast(f, ids, event))
    decreases |ids|
  {
    if ids != [] {
      PutFair(f, ids[0], event);
      BroadcastFair(Put(f, ids[0], event), ids[1..], event);
    }
  }

  /** Owners are drawn at random, one for each attachment. */
  ghost predicate FreshOwner(st: State, op: Op) {
    op.Subscribe? ==> forall id :: id in st.fan.subs ==> st.fan.subs[id].owner != op.owner
  }

  ghost predicate FreshOwners(limit: nat, st: State, ops: seq<Op>)
    requires Trace(limit, st, ops)
    decreases |ops|
  {
    ops == [] || (FreshOwner(st, ops[0]) && FreshOwners(limit, Step(limit, st, ops[0]), ops[1..]))
  }

  lemma StepFair(limit: nat, st: State, op: Op)
    requires Fair(st.fan) && Possible(st, op) && FreshOwner(st, op)
    ensures Fair(Step(limit, st, op).fan)
  {
    match op {
      case Read(data, order) => BroadcastFair(st.fan, order, Output(data));
      case Ended(code, order) => BroadcastFair(st.fan, order, Exit(code));
      case Subscribe(id, owner, wantKeyboard) => SubscribeFair(st.fan, id, owner, wantKeyboard, st.tail);
      case Detach(id) => UnsubscribeFair(st.fan, id);
      case Take(id) => SameFair(st.fan, id, Taken(st.fan.subs[id]));
    }
  }

  lemma SubscribeFair(f: Fan, id: nat, owner: string, wantKeyboard: bool, tail: Bytes)
    requires Fair(f) && id !in f.subs && forall k :: k in f.subs ==> f.subs[k].owner != owner
    ensures var keyboard := wantKeyboard && f.keyboardOwner.None?;
            Fair(Fan(f.subs[id := Subscription(owner, keyboard, tail, [], [], false)], f.live + {id},
                     if keyboard then Some(owner) else f.keyboardOwner))
  {
    var keyboard := wantKeyboard && f.keyboardOwner.None?;
    var f' := Fan(f.subs[id := Subscription(owner, keyboard, tail, [], [], false)], f.live + {id},
                  if keyboard then Some(owner) else f.keyboardOwner);
    forall k ensures Holds(f', k) <==> Holds(f, k) || (k == id && keyboard) {}
    if f'.keyboardOwner.Some? {
      if keyboard {
        assert Holds(f', id);
      } else {
        var holder :| Holds(f, holder);
        assert Holds(f', holder);
      }
    }
  }

  /** At most one attachment has the keyboard, through any reads, overflows, attaches and detaches. */
  lemma {:induction false} OneKeyboard(limit: nat, st: State, ops: seq<Op>)
    requires Fair(st.fan) && Trace(limit, st, ops) && FreshOwners(limit, st, ops)
    ensures Fair(After(limit, st, ops).fan)
    decreases |ops|
  {
    if ops != [] {
      StepFair(limit, st, ops[0]);
      OneKeyboard(limit, Step(limit, st, ops[0]), ops[1..]);
    }
  }

  // ---- From the start ----

  /**
   A new session, through any reads, ends, attaches, detaches and takes: every client has a contiguous piece of
   the stream, whoever was dropped without asking was flagged, and fresh owners give at most one keyboard.
   */
  lemma EveryRunIsFair(limit: nat, ops: seq<Op>)
    requires Trace(limit, FRESH, ops)
    ensures Good(limit, After(limit, FRESH, ops))
    ensures DropsAreFlagged(After(limit, FRESH, ops), Asked(ops))
    ensures FreshOwners(limit, FRESH, ops) ==> Fair(After(limit, FRESH, ops).fan)
  {
    assert Good(limit, FRESH) && DropsAreFlagged(FRESH, {});
    OutputHasNoGaps(limit, FRESH, ops);
    OnlyOverflowDrops(limit, FRESH, ops, {});
    assert {} + Asked(ops) == Asked(ops);
    if FreshOwners(limit, FRESH, ops) {
      assert Fair(FRESH.fan);
      OneKeyboard(limit, FRESH, ops);
    }
  }

  // ---- The session ----

  class Attachments {
    var subs: map<nat, Subscription>
    var live: set<nat>
    var keyboardOwner: Option<string>

    ghost function Now(): Fan
      reads this
    {
      Fan(subs, live, keyboardOwner)
    }

    constructor ()
      ensures Now() == Fan(map[], {}, None)
    {
      subs, live, keyboardOwner := map[], {}, None;
    }

    method Attach(id: nat, owner: string, wantKeyboard: bool, snapshot: Bytes) returns (keyboard: bool)
      requires id !in subs
      modifies this
      ensures keyboard == (wantKeyboard && old(keyboardOwner).None?)
      ensures Now() == Fan(old(subs)[id := Subscription(owner, keyboard, snapshot, [], [], false)], old(live) + {id},
                           if keyboard then Some(owner) else old(keyboardOwner))
    {
      keyboard := wantKeyboard && keyboardOwner.None?;
      subs := subs[id := Subscription(owner, keyboard, snapshot, [], [], false)];
      live := live + {id};
      if keyboard {
        keyboardOwner := Some(owner);
      }
    }

    method Leave(id: nat)
      requires id in subs
      modifies this`live, this`keyboardOwner
      ensures Now() == Unsubscribe(old(Now()), id)
      ensures live == old(live) - {id}
      ensures keyboardOwner == if id in old(live) && old(keyboardOwner) == Some(subs[id].owner) then None
                               else old(keyboardOwner)
    {
      if id !in live {
        return;
      }
      live := live - {id};
      if keyboardOwner == Some(subs[id].owner) {
        keyboardOwner := None;
      }
    }

    /** The loop of `_broadcast` over a copy of the attachments. */
    method Send(order: seq<nat>, event: Event)
      requires forall i :: 0 <= i < |order| ==> order[i] in subs
      modifies this
      ensures Now() == Broadcast(old(Now()), order, event)
    {
      assert order[0..] == order;
      for i := 0 to |order|
        invariant forall k :: 0 <= k < |order| ==> order[k] in subs
        invariant Broadcast(Now(), order[i..], event) == Broadcast(old(Now()), order, event)
      {
        assert order[i..][0] == order[i] && order[i..][1..] == order[i + 1..];
        var id := order[i];
        var s := subs[id];
        if |s.queue| < QUEUE_FRAMES {
          subs := subs[id := s.(queue := s.queue + [event])];
        } else {
          subs := subs[id := s.(overflowed := true)];
          Leave(id);
        }
      }
    }
  }
}
