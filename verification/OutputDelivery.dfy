/**
 Who gets an event: exactly the attached clients with room in their queue, and whoever has none is dropped and
 told so. Once the program has ended nothing is added any more.
 */
module OutputDelivery {
  import opened Common
  import opened OutputTails

  /** What an event does to one attachment: 256 frames may wait. */
  predicate Delivered(before: Fan, after: Fan, id: nat, event: Event)
    requires id in before.subs
  {
    && id in after.subs
    && var s, s' := before.subs[id], after.subs[id];
       if id !in before.live then s' == s && id !in after.live
       else if |s.queue| < 256 then s' == s.(queue := s.queue + [event]) && id in after.live
       else s' == s.(overflowed := true) && id !in after.live
  }

  lemma {:induction false} BroadcastTo(f: Fan, ids: seq<nat>, event: Event, id: nat)
    requires forall i :: 0 <= i < |ids| ==> ids[i] in f.subs && ids[i] in f.live
    requires forall i, j :: 0 <= i < j < |ids| ==> ids[i] != ids[j]
    ensures var after := Broadcast(f, ids, event);
            && after.subs.Keys == f.subs.Keys && after.live <= f.live
            && (id in f.subs && id in ids ==> Delivered(f, after, id, event))
            && (id in f.subs && id !in ids ==> after.subs[id] == f.subs[id] && (id in after.live <==> id in f.live))
            && (after.keyboardOwner == f.keyboardOwner || after.keyboardOwner.None?)
    decreases |ids|
  {
    if ids != [] {
      var next := Put(f, ids[0], event);
      forall i | 0 <= i < |ids[1..]|
        ensures ids[1..][i] in next.subs && ids[1..][i] in next.live && ids[1..][i] != ids[0]
      {
        assert ids[1..][i] == ids[i + 1];
      }
      assert ids == [ids[0]] + ids[1..];
      BroadcastTo(next, ids[1..], event, id);
    }
  }

  /** In whatever order the attachments are served: everyone with room gets the event last, the others are dropped. */
  lemma EventIsDelivered(f: Fan, order: seq<nat>, event: Event, id: nat)
    requires f.live <= f.subs.Keys && Enumerates(order, f.live) && id in f.subs
    ensures Broadcast(f, order, event).subs.Keys == f.subs.Keys && Delivered(f, Broadcast(f, order, event), id, event)
  {
    BroadcastTo(f, order, event, id);
  }

  /** The keyboard stays with its owner exactly when no one with this owner is dropped. */
  lemma {:induction false} KeyboardKept(f: Fan, ids: seq<nat>, event: Event)
    requires forall i :: 0 <= i < |ids| ==> ids[i] in f.subs && ids[i] in f.live
    requires forall i, j :: 0 <= i < j < |ids| ==> ids[i] != ids[j]
    requires f.keyboardOwner.Some?
    ensures Broadcast(f, ids, event).keyboardOwner == f.keyboardOwner <==>
            forall i :: 0 <= i < |ids| ==> |f.subs[ids[i]].queue| < 256 || Some(f.subs[ids[i]].owner) != f.keyboardOwner
    decreases |ids|
  {
    if ids != [] {
      var next := Put(f, ids[0], event);
      forall i | 0 <= i < |ids[1..]|
        ensures ids[1..][i] in next.subs && ids[1..][i] in next.live && next.subs[ids[1..][i]] == f.subs[ids[i + 1]]
      {
        assert ids[1..][i] == ids[i + 1] != ids[0];
      }
      BroadcastTo(next, ids[1..], event, 0);
      if next.keyboardOwner.Some? {
        KeyboardKept(next, ids[1..], event);
        assert forall i :: 0 < i < |ids| ==> ids[i] == ids[1..][i - 1];
      }
    }
  }

  ghost predicate Bounded(f: Fan) {
    && (forall id :: id in f.subs ==> |f.subs[id].queue| <= 256)
    && (forall id :: id in f.live && id in f.subs ==> !f.subs[id].overflowed)
  }

  lemma StepBounded(limit: nat, st: State, op: Op)
    requires Possible(st, op) && Bounded(st.fan)
    ensures Bounded(Step(limit, st, op).fan)
  {
    var f' := Step(limit, st, op).fan;
    match op {
      case Read(data, order) =>
        forall id | id in st.fan.subs ensures Delivered(st.fan, f', id, Output(data)) {
          EventIsDelivered(st.fan, order, Output(data), id);
        }
        BroadcastTo(st.fan, order, Output(data), 0);
      case Ended(code, order) =>
        forall id | id in st.fan.subs ensures Delivered(st.fan, f', id, Exit(code)) {
          EventIsDelivered(st.fan, order, Exit(code), id);
        }
        BroadcastTo(st.fan, order, Exit(code), 0);
      case _ =>
    }
  }

  /** No more than 256 frames ever wait, and whoever is attached has lost none. */
  lemma {:induction false} QueuesAreBounded(limit: nat, st: State, ops: seq<Op>)
    requires Bounded(st.fan) && Trace(limit, st, ops)
    ensures Bounded(After(limit, st, ops).fan)
    decreases |ops|
  {
    if ops != [] {
      StepBounded(limit, st, ops[0]);
      QueuesAreBounded(limit, Step(limit, st, ops[0]), ops[1..]);
    }
  }

  /** Once the program has ended, no one is attached any more and no output comes. */
  lemma {:induction false} EndIsFinal(limit: nat, st: State, ops: seq<Op>)
    requires !st.running && Trace(limit, st, ops)
    ensures var st' := After(limit, st, ops);
            !st'.running && st'.stream == st.stream && st'.tail == st.tail && st'.fan.subs.Keys == st.fan.subs.Keys
            && st'.fan.live <= st.fan.live
    decreases |ops|
  {
    if ops != [] {
      EndIsFinal(limit, Step(limit, st, ops[0]), ops[1..]);
    }
  }

  /**
   From the start: when the program ends with `code`, every attached client with room is told so, as its last event.
   */
  lemma EndIsTold(limit: nat, ops: seq<Op>, code: int, order: seq<nat>, more: seq<Op>, id: nat)
    requires Trace(limit, FRESH, ops) && Possible(After(limit, FRESH, ops), Ended(code, order))
    requires Trace(limit, Step(limit, After(limit, FRESH, ops), Ended(code, order)), more)
    ensures var st := After(limit, FRESH, ops);
            var st' := Step(limit, st, Ended(code, order));
            && (id in st.fan.subs ==> Delivered(st.fan, st'.fan, id, Exit(code)))
            && After(limit, st', more).fan.subs.Keys == st.fan.subs.Keys && After(limit, st', more).stream == st.stream
  {
    var st := After(limit, FRESH, ops);
    var st' := Step(limit, st, Ended(code, order));
    if id in st.fan.subs { EventIsDelivered(st.fan, order, Exit(code), id); }
    BroadcastTo(st.fan, order, Exit(code), id);
    EndIsFinal(limit, st', more);
  }
}
