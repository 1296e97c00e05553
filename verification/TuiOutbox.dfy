/**
 The terminal client's reliable commands: a bounded outbox with a byte count, and the order in which the
 pending commands are sent again after a reconnect.
 */
module TuiOutbox {
  import opened Common

  const OUTBOX_CAP := 256
  const OUTBOX_BYTES := 32 * 1024 * 1024
  const MAX_FRAME_BYTES := 16 * 1024 * 1024

  /** The fields of a serialized command that the outbox looks at. */
  datatype Raw = Raw(kind: string, sid: Option<string>, sessionId: Option<string>, payload: string)

  datatype Entry = Entry(cmdId: string, raw: Raw, size: nat)

  type Entries = seq<Entry>

  /** The length of the UTF-8 encoding. */
  type SizeOf = Raw -> nat

  function Sum(entries: Entries): nat {
    if entries == [] then 0 else entries[0].size + Sum(entries[1..])
  }

  predicate DistinctIds(entries: Entries) {
    forall i, j :: 0 <= i < j < |entries| ==> entries[i].cmdId != entries[j].cmdId
  }

  /** Both caps hold, the count is the sum, and every size is the size of what is stored. */
  predicate Sound(sizeOf: SizeOf, entries: Entries, bytes: nat) {
    && DistinctIds(entries) && |entries| <= OUTBOX_CAP
    && bytes == Sum(entries) && bytes <= OUTBOX_BYTES
    && forall i :: 0 <= i < |entries| ==> entries[i].size == sizeOf(entries[i].raw) <= MAX_FRAME_BYTES
  }

  lemma {:induction false} SumConcat(a: Entries, b: Entries)
    ensures Sum(a + b) == Sum(a) + Sum(b)
  {
    if a == [] {
      assert a + b == b;
    } else {
      assert (a + b)[1..] == a[1..] + b;
      SumConcat(a[1..], b);
    }
  }

  lemma SumAt(entries: Entries, i: nat, e: Entry)
    requires i < |entries|
    ensures Sum(entries[i := e]) == Sum(entries) - entries[i].size + e.size
  {
    var a, b := entries[..i], entries[i + 1..];
    assert entries == a + ([entries[i]] + b) && entries[i := e] == a + ([e] + b);
    SumConcat(a, [entries[i]] + b);
    SumConcat(a, [e] + b);
    assert ([entries[i]] + b)[1..] == b && ([e] + b)[1..] == b;
  }

  // ---- Rekeying ----

  function RekeyRaw(raw: Raw, from: string, to: string): Raw {
    raw.(sid := if raw.sid == Some(from) then Some(to) else raw.sid,
         sessionId := if raw.sessionId == Some(from) then Some(to) else raw.sessionId)
  }

  predicate Mentions(raw: Raw, from: string) {
    raw.sid == Some(from) || raw.sessionId == Some(from)
  }

  /** The entry with the new id, unless that would break a cap. */
  function RekeyEntry(sizeOf: SizeOf, e: Entry, bytes: int, from: string, to: string): Entry {
    var raw := RekeyRaw(e.raw, from, to);
    var size := sizeOf(raw);
    if !Mentions(e.raw, from) || size > MAX_FRAME_BYTES || bytes - e.size + size > OUTBOX_BYTES then e
    else Entry(e.cmdId, raw, size)
  }

  lemma ReplaceSound(sizeOf: SizeOf, entries: Entries, bytes: nat, i: nat, e: Entry)
    requires Sound(sizeOf, entries, bytes) && i < |entries| && e.cmdId == entries[i].cmdId
    requires e.size == sizeOf(e.raw) <= MAX_FRAME_BYTES && bytes - entries[i].size + e.size <= OUTBOX_BYTES
    ensures bytes >= entries[i].size
    ensures Sound(sizeOf, entries[i := e], bytes - entries[i].size + e.size)
  {
    SumAt(entries, i, e);
    SumHas(entries, i);
  }

  lemma {:induction false} SumHas(entries: Entries, i: nat)
    requires i < |entries|
    ensures Sum(entries) >= entries[i].size
  {
    if i > 0 { SumHas(entries[1..], i - 1); }
  }

  /** Entry by entry, each against the byte count that the earlier ones left. */
  function RekeyFrom(sizeOf: SizeOf, entries: Entries, i: nat, bytes: int, from: string, to: string): Entries
    requires i <= |entries|
    decreases |entries| - i
  {
    if i == |entries| then entries
    else
      var e := RekeyEntry(sizeOf, entries[i], bytes, from, to);
      RekeyFrom(sizeOf, entries[i := e], i + 1, bytes - entries[i].size + e.size, from, to)
  }

  /** A rekeyed command or the same one. */
  predicate Rekeyed(e: Entry, was: Entry, from: string, to: string) {
    e.cmdId == was.cmdId && (e == was || e.raw == RekeyRaw(was.raw, from, to))
  }

  /** Rekeying keeps ids, order, caps and the count, and renames every entry or leaves it as it is. */
  lemma {:induction false} RekeySound(sizeOf: SizeOf, entries: Entries, i: nat, bytes: nat, from: string, to: string)
    requires Sound(sizeOf, entries, bytes) && i <= |entries|
    ensures var out := RekeyFrom(sizeOf, entries, i, bytes, from, to);
            && Sound(sizeOf, out, Sum(out)) && |out| == |entries| && out[..i] == entries[..i]
            && (i < |entries| ==> out[i] == RekeyEntry(sizeOf, entries[i], bytes, from, to))
            && forall k :: i <= k < |entries| ==> Rekeyed(out[k], entries[k], from, to)
    decreases |entries| - i
  {
    if i < |entries| {
      var e := RekeyEntry(sizeOf, entries[i], bytes, from, to);
      ReplaceSound(sizeOf, entries, bytes, i, e);
      var next, bytes' := entries[i := e], bytes - entries[i].size + e.size;
      RekeySound(sizeOf, next, i + 1, bytes', from, to);
      var out := RekeyFrom(sizeOf, next, i + 1, bytes', from, to);
      assert out[i] == out[..i + 1][i] == next[..i + 1][i] == e;
      assert out[..i] == out[..i + 1][..i] && entries[..i] == next[..i + 1][..i];
    }
  }

  /** `copy` is the command with the new id wherever the old one stood, and otherwise the same. */
  predicate Renames(copy: Raw, raw: Raw, from: string, to: string) {
    && copy.kind == raw.kind && copy.payload == raw.payload
    && (if raw.sid == Some(from) then copy.sid == Some(to) else copy.sid == raw.sid)
    && (if raw.sessionId == Some(from) then copy.sessionId == Some(to) else copy.sessionId == raw.sessionId)
  }

  predicate Names(raw: Raw, id: string) {
    raw.sid == Some(id) || raw.sessionId == Some(id)
  }

  /** Bytes in the outbox when entry `k` is looked at: the entries before it are as in `after`. */
  function CountAt(after: Entries, before: Entries, k: nat): nat
    requires k <= |before| == |after|
  {
    Sum(after[..k]) + Sum(before[k..])
  }

  lemma CountFirst(after: Entries, before: Entries, k: nat)
    requires k <= |before| == |after| && after[..k] == before[..k]
    ensures CountAt(after, before, k) == Sum(before)
  {
    assert before == before[..k] + before[k..];
    SumConcat(before[..k], before[k..]);
  }

  lemma {:induction false} RekeyAt(sizeOf: SizeOf, entries: Entries, i: nat, bytes: nat, from: string, to: string,
                                   k: nat)
    requires Sound(sizeOf, entries, bytes) && i <= k < |entries|
    ensures var out := RekeyFrom(sizeOf, entries, i, bytes, from, to);
            |out| == |entries| && out[k] == RekeyEntry(sizeOf, entries[k], CountAt(out, entries, k), from, to)
    decreases |entries| - i
  {
    RekeySound(sizeOf, entries, i, bytes, from, to);
    if k == i {
      CountFirst(RekeyFrom(sizeOf, entries, i, bytes, from, to), entries, i);
    } else {
      var e := RekeyEntry(sizeOf, entries[i], bytes, from, to);
      ReplaceSound(sizeOf, entries, bytes, i, e);
      RekeyAt(sizeOf, entries[i := e], i + 1, bytes - entries[i].size + e.size, from, to, k);
      assert entries[i := e][k..] == entries[k..];
    }
  }

  /**
   A rename leaves a command as it was if and only if it does not name the old id, or its copy breaks the frame
   cap, or the copy breaks the byte cap beside what the earlier commands left. Every other command becomes its copy.
   */
  lemma RekeyExactly(sizeOf: SizeOf, entries: Entries, bytes: nat, from: string, to: string, k: nat, copy: Raw)
    requires Sound(sizeOf, entries, bytes) && from != to && k < |entries| && Renames(copy, entries[k].raw, from, to)
    ensures var out := RekeyFrom(sizeOf, entries, 0, bytes, from, to);
            && |out| == |entries|
            && (out[k] == entries[k] <==>
                || !Names(entries[k].raw, from) || sizeOf(copy) > 16 * 1024 * 1024
                || CountAt(out, entries, k) - entries[k].size + sizeOf(copy) > 32 * 1024 * 1024)
            && (out[k] == entries[k] || out[k] == Entry(entries[k].cmdId, copy, sizeOf(copy)))
  {
    RekeyAt(sizeOf, entries, 0, bytes, from, to, k);
    assert copy == RekeyRaw(entries[k].raw, from, to);
  }

  /** The larger of the old and the new size of every command, in all. */
  function Room(sizeOf: SizeOf, entries: Entries, from: string, to: string): nat {
    if entries == [] then 0
    else Max(entries[0].size, sizeOf(RekeyRaw(entries[0].raw, from, to))) + Room(sizeOf, entries[1..], from, to)
  }

  lemma {:induction false} RoomConcat(sizeOf: SizeOf, a: Entries, b: Entries, from: string, to: string)
    ensures Room(sizeOf, a + b, from, to) == Room(sizeOf, a, from, to) + Room(sizeOf, b, from, to)
  {
    if a == [] {
      assert a + b == b;
    } else {
      assert (a + b)[1..] == a[1..] + b;
      RoomConcat(sizeOf, a[1..], b, from, to);
    }
  }

  lemma {:induction false} RoomBounds(sizeOf: SizeOf, out: Entries, was: Entries, from: string, to: string)
    requires |out| == |was|
    requires forall k :: 0 <= k < |was| ==> out[k].size <= Max(was[k].size, sizeOf(RekeyRaw(was[k].raw, from, to)))
    ensures Sum(out) <= Room(sizeOf, was, from, to)
  {
    if was != [] {
      forall k | 0 <= k < |was[1..]|
        ensures out[1..][k].size <= Max(was[1..][k].size, sizeOf(RekeyRaw(was[1..][k].raw, from, to)))
      {
        assert out[1..][k] == out[k + 1] && was[1..][k] == was[k + 1];
      }
      RoomBounds(sizeOf, out[1..], was[1..], from, to);
    }
  }

  /**
   With room for the larger of both sizes, and every copy within the frame cap, no command names the old id
   afterwards.
   */
  lemma RekeyRenamesAll(sizeOf: SizeOf, entries: Entries, bytes: nat, from: string, to: string, k: nat)
    requires Sound(sizeOf, entries, bytes) && from != to && k < |entries|
    requires forall j :: 0 <= j < |entries| ==> sizeOf(RekeyRaw(entries[j].raw, from, to)) <= 16 * 1024 * 1024
    requires Room(sizeOf, entries, from, to) <= 32 * 1024 * 1024
    ensures var out := RekeyFrom(sizeOf, entries, 0, bytes, from, to);
            |out| == |entries| && !Names(out[k].raw, from) && Renames(out[k].raw, entries[k].raw, from, to)
  {
    var out, copy := RekeyFrom(sizeOf, entries, 0, bytes, from, to), RekeyRaw(entries[k].raw, from, to);
    RekeyExactly(sizeOf, entries, bytes, from, to, k, copy);
    forall j | 0 <= j < |entries|
      ensures out[j].size <= Max(entries[j].size, sizeOf(RekeyRaw(entries[j].raw, from, to)))
    {
      RekeyExactly(sizeOf, entries, bytes, from, to, j, RekeyRaw(entries[j].raw, from, to));
    }
    RoomBounds(sizeOf, out[..k], entries[..k], from, to);
    RoomHolds(sizeOf, entries, k, from, to);
  }

  /** Entry `k` fits beside the room of those before it and the present size of those after it. */
  lemma RoomHolds(sizeOf: SizeOf, entries: Entries, k: nat, from: string, to: string)
    requires k < |entries|
    ensures Sum(entries[k..]) >= entries[k].size
    ensures Room(sizeOf, entries[..k], from, to) + Sum(entries[k..]) - entries[k].size +
            sizeOf(RekeyRaw(entries[k].raw, from, to))
            <= Room(sizeOf, entries, from, to)
  {
    assert entries == entries[..k] + entries[k..];
    RoomConcat(sizeOf, entries[..k], entries[k..], from, to);
    RoomBounds(sizeOf, entries[k..][1..], entries[k..][1..], from, to);
  }

  lemma RemoveSum(entries: Entries, i: nat)
    requires i < |entries|
    ensures Sum(entries[..i] + entries[i + 1..]) == Sum(entries) - entries[i].size
  {
    var a, b := entries[..i], entries[i + 1..];
    assert entries == a + ([entries[i]] + b);
    SumConcat(a, [entries[i]] + b);
    SumConcat(a, b);
    assert ([entries[i]] + b)[1..] == b;
  }

  lemma RemoveAt(entries: Entries, i: nat)
    requires i < |entries| && DistinctIds(entries)
    ensures var rest := entries[..i] + entries[i + 1..];
            && (forall k :: 0 <= k < |rest| ==> rest[k] == entries[if k < i then k else k + 1])
            && (forall e :: e in rest <==> e in entries && e.cmdId != entries[i].cmdId)
  {
    var rest := entries[..i] + entries[i + 1..];
    forall k | 0 <= k < |rest| ensures rest[k] == entries[if k < i then k else k + 1] {}
    forall e: Entry | e in entries && e.cmdId != entries[i].cmdId ensures e in rest {
      var j :| 0 <= j < |entries| && entries[j] == e;
      assert rest[if j < i then j else j - 1] == e;
    }
  }

  lemma RemoveSound(sizeOf: SizeOf, entries: Entries, bytes: nat, i: nat)
    requires Sound(sizeOf, entries, bytes) && i < |entries|
    ensures bytes >= entries[i].size
    ensures Sound(sizeOf, entries[..i] + entries[i + 1..], bytes - entries[i].size)
    ensures forall e :: e in entries[..i] + entries[i + 1..] <==> e in entries && e.cmdId != entries[i].cmdId
  {
    RemoveSum(entries, i);
    RemoveAt(entries, i);
  }

  // ---- The outbox ----

  class Outbox {
    const sizeOf: SizeOf
    var entries: Entries
    var bytes: nat

    ghost predicate Valid()
      reads this
    {
      Sound(sizeOf, entries, bytes)
    }

    constructor (sizeOf: SizeOf)
      ensures Valid() && entries == [] && this.sizeOf == sizeOf
    {
      this.sizeOf := sizeOf;
      entries, bytes := [], 0;
    }

    method IndexOf(cmdId: string) returns (i: nat)
      ensures i <= |entries| && (i < |entries| ==> entries[i].cmdId == cmdId)
      ensures i == |entries| ==> forall k :: 0 <= k < |entries| ==> entries[k].cmdId != cmdId
    {
      i := 0;
      while i < |entries| && entries[i].cmdId != cmdId
        invariant i <= |entries| && forall k :: 0 <= k < i ==> entries[k].cmdId != cmdId
      {
        i := i + 1;
      }
    }

    /** A command already in the outbox is sent as it is stored; a new one is refused when it breaks a cap. */
    method Accept(cmdId: string, raw: Raw) returns (accepted: bool)
      requires Valid()
      modifies this
      ensures Valid()
      ensures accepted && (forall k :: 0 <= k < |old(entries)| ==> old(entries)[k].cmdId != cmdId) ==>
                entries == old(entries) + [Entry(cmdId, raw, sizeOf(raw))]
      ensures !accepted || (exists k :: 0 <= k < |old(entries)| && old(entries)[k].cmdId == cmdId) ==>
                entries == old(entries) && bytes == old(bytes)
      ensures !accepted <==>
                && (forall k :: 0 <= k < |old(entries)| ==> old(entries)[k].cmdId != cmdId)
                && (sizeOf(raw) > MAX_FRAME_BYTES || |old(entries)| >= OUTBOX_CAP ||
                    old(bytes) + sizeOf(raw) > OUTBOX_BYTES)
    {
      var i := IndexOf(cmdId);
      if i < |entries| {
        return true;
      }
      var size := sizeOf(raw);
      if size > MAX_FRAME_BYTES || |entries| >= OUTBOX_CAP || bytes + size > OUTBOX_BYTES {
        return false;
      }
      SumConcat(entries, [Entry(cmdId, raw, size)]);
      entries := entries + [Entry(cmdId, raw, size)];
      bytes := bytes + size;
      return true;
    }

    /** `command_ack` */
    method Acknowledge(cmdId: string)
      requires Valid()
      modifies this
      ensures Valid()
      ensures forall k :: k in entries <==> k in old(entries) && k.cmdId != cmdId
      ensures (entries == old(entries) && bytes == old(bytes)) ||
              exists i :: 0 <= i < |old(entries)| && old(entries)[i].cmdId == cmdId &&
                entries == old(entries)[..i] + old(entries)[i + 1..]
    {
      var i := IndexOf(cmdId);
      if i < |entries| {
        RemoveSound(sizeOf, entries, bytes, i);
        bytes := bytes - entries[i].size;
        entries := entries[..i] + entries[i + 1..];
      }
    }

    /** `_rekey_outbox` */
    method Rekey(from: string, to: string)
      requires Valid()
      modifies this
      ensures Valid()
      ensures entries == RekeyFrom(sizeOf, old(entries), 0, old(bytes), from, to)
    {
      for i := 0 to |entries|
        invariant Valid() && |entries| == |old(entries)|
        invariant RekeyFrom(sizeOf, entries, i, bytes, from, to) ==
                  RekeyFrom(sizeOf, old(entries), 0, old(bytes), from, to)
      {
        var e := entries[i];
        var raw := RekeyRaw(e.raw, from, to);
        var size := sizeOf(raw);
        if !Mentions(e.raw, from) || size > MAX_FRAME_BYTES || bytes - e.size + size > OUTBOX_BYTES {
          assert entries[i := e] == entries;
          continue;
        }
        ReplaceSound(sizeOf, entries, bytes, i, Entry(e.cmdId, raw, size));
        entries := entries[i := Entry(e.cmdId, raw, size)];
        bytes := bytes + size - e.size;
      }
    }
  }

  // ---- Recovery ----

  datatype Sent = Hello | Switch(sid: string) | Command(entry: Entry)

  /** The session a command is for; a switch that has no `sid` is for the session it names. */
  function SessionOf(raw: Raw): Option<string> {
    if raw.sid.None? && raw.kind == "switch_session" then raw.sessionId else raw.sid
  }

  /** `/btw` sessions are ephemeral and cannot be made resident. */
  predicate Durable(sid: string) {
    sid != "" && !("btw-" <= sid)
  }

  function TargetOf(e: Entry): Option<string> {
    var sid := SessionOf(e.raw);
    if sid.Some? && Durable(sid.value) then sid else None
  }

  function Targets(entries: Entries): seq<string> {
    if entries == [] then []
    else if TargetOf(entries[0]).Some? then [TargetOf(entries[0]).value] + Targets(entries[1..])
    else Targets(entries[1..])
  }

  function Remove(xs: seq<string>, x: string): seq<string> {
    if xs == [] then []
    else if xs[0] == x then Remove(xs[1..], x)
    else [xs[0]] + Remove(xs[1..], x)
  }

  /** `dict.fromkeys` */
  function FirstOccurrences(xs: seq<string>): seq<string>
    decreases |xs|
  {
    if xs == [] then [] else [xs[0]] + Remove(FirstOccurrences(xs[1..]), xs[0])
  }

  /** The sessions to switch to: each once, the attached one last. */
  function Order(entries: Entries, attached: Option<string>): seq<string> {
    if attached.Some? && Durable(attached.value)
       then FirstOccurrences(Remove(Targets(entries), attached.value) + [attached.value])
    else FirstOccurrences(Targets(entries))
  }

  /** The commands of one session, or with `None` those of no session. */
  function Of(key: Option<string>, entries: Entries): Entries {
    if entries == [] then []
    else if SessionOf(entries[0].raw) == key then [entries[0]] + Of(key, entries[1..])
    else Of(key, entries[1..])
  }

  /** The commands of none of these sessions. */
  function Others(keys: set<Option<string>>, entries: Entries): Entries {
    if entries == [] then []
    else if SessionOf(entries[0].raw) in keys then Others(keys, entries[1..])
    else [entries[0]] + Others(keys, entries[1..])
  }

  function Commands(entries: Entries): seq<Sent> {
    seq(|entries|, i requires 0 <= i < |entries| => Command(entries[i]))
  }

  function Group(sid: string, entries: Entries): seq<Sent> {
    [Switch(sid)] + Commands(Of(Some(sid), entries))
  }

  function Groups(order: seq<string>, entries: Entries): seq<Sent> {
    if order == [] then [] else Group(order[0], entries) + Groups(order[1..], entries)
  }

  function ToSet(xs: seq<string>): set<Option<string>> {
    set x | x in xs :: Some(x)
  }

  /** Everything the recovery sends when nothing fails. */
  function Plan(entries: Entries, attached: Option<string>): seq<Sent> {
    var order := Order(entries, attached);
    [Hello] + Groups(order, entries) + Commands(Others(ToSet(order), entries))
  }

  /** The commands among what is sent, in order. */
  function Pending(sent: seq<Sent>): Entries {
    if sent == [] then []
    else if sent[0].Command? then [sent[0].entry] + Pending(sent[1..])
    else Pending(sent[1..])
  }

  lemma {:induction false} PendingConcat(a: seq<Sent>, b: seq<Sent>)
    ensures Pending(a + b) == Pending(a) + Pending(b)
  {
    if a == [] {
      assert a + b == b;
    } else {
      assert (a + b)[1..] == a[1..] + b;
      PendingConcat(a[1..], b);
    }
  }

  lemma {:induction false} PendingCommands(entries: Entries)
    ensures Pending(Commands(entries)) == entries
  {
    if entries != [] {
      assert Commands(entries)[1..] == Commands(entries[1..]);
      PendingCommands(entries[1..]);
    }
  }

  lemma {:induction false} RemoveIs(xs: seq<string>, x: string)
    ensures forall y :: y in Remove(xs, x) <==> y in xs && y != x
    ensures (forall i, j :: 0 <= i < j < |xs| ==> xs[i] != xs[j]) ==>
              forall i, j :: 0 <= i < j < |Remove(xs, x)| ==> Remove(xs, x)[i] != Remove(xs, x)[j]
  {
    if xs != [] {
      RemoveIs(xs[1..], x);
      assert xs == [xs[0]] + xs[1..];
      if forall i, j :: 0 <= i < j < |xs| ==> xs[i] != xs[j] {
        assert xs[0] !in xs[1..];
        forall i, j | 0 <= i < j < |xs[1..]| ensures xs[1..][i] != xs[1..][j] {
          assert xs[i + 1] != xs[j + 1];
        }
      }
    }
  }

  lemma {:induction false} FirstOccurrencesIs(xs: seq<string>)
    ensures forall y :: y in FirstOccurrences(xs) <==> y in xs
    ensures forall i, j :: 0 <= i < j < |FirstOccurrences(xs)| ==> FirstOccurrences(xs)[i] != FirstOccurrences(xs)[j]
    decreases |xs|
  {
    if xs != [] {
      FirstOccurrencesIs(xs[1..]);
      var rest := Remove(FirstOccurrences(xs[1..]), xs[0]);
      RemoveIs(FirstOccurrences(xs[1..]), xs[0]);
      assert xs == [xs[0]] + xs[1..];
      forall j | 0 <= j < |rest| ensures rest[j] != xs[0] {
        assert rest[j] in rest;
      }
    }
  }

  // ---- Each command once ----

  lemma {:induction false} OthersStep(key: Option<string>, keys: set<Option<string>>, entries: Entries)
    requires key !in keys
    ensures multiset(Others(keys, entries)) == multiset(Of(key, entries)) + multiset(Others(keys + {key}, entries))
  {
    if entries != [] {
      OthersStep(key, keys, entries[1..]);
    }
  }

  lemma {:induction false} OthersOfNothing(entries: Entries)
    ensures Others({}, entries) == entries
  {
    if entries != [] {
      OthersOfNothing(entries[1..]);
      assert [entries[0]] + entries[1..] == entries;
    }
  }

  lemma {:induction false} GroupsPending(order: seq<string>, entries: Entries, keys: set<Option<string>>)
    requires forall i, j :: 0 <= i < j < |order| ==> order[i] != order[j]
    requires forall x :: x in order ==> Some(x) !in keys
    ensures multiset(Pending(Groups(order, entries))) + multiset(Others(keys + ToSet(order), entries)) ==
            multiset(Others(keys, entries))
    decreases |order|
  {
    if order == [] {
      assert keys + ToSet(order) == keys;
    } else {
      var key, rest := Some(order[0]), order[1..];
      assert order == [order[0]] + rest && order[0] !in rest;
      assert keys + {key} + ToSet(rest) == keys + ToSet(order);
      OthersStep(key, keys, entries);
      GroupsPending(rest, entries, keys + {key});
      PendingGroup(order, entries);
    }
  }

  lemma PendingGroup(order: seq<string>, entries: Entries)
    requires order != []
    ensures Pending(Groups(order, entries)) == Of(Some(order[0]), entries) + Pending(Groups(order[1..], entries))
  {
    PendingAfter(Switch(order[0]), Of(Some(order[0]), entries), Groups(order[1..], entries));
  }

  lemma PendingAfter(first: Sent, entries: Entries, rest: seq<Sent>)
    requires !first.Command?
    ensures Pending([first] + Commands(entries) + rest) == entries + Pending(rest)
  {
    PendingConcat([first] + Commands(entries), rest);
    PendingConcat([first], Commands(entries));
    PendingCommands(entries);
    assert Pending([first]) == [] by { assert [first][1..] == []; }
    assert [] + entries == entries;
  }

  lemma PendingPlan(entries: Entries, attached: Option<string>)
    ensures var order := Order(entries, attached);
            Pending(Plan(entries, attached)) == Pending(Groups(order, entries)) + Others(ToSet(order), entries)
  {
    var order := Order(entries, attached);
    PendingConcat([Hello] + Groups(order, entries), Commands(Others(ToSet(order), entries)));
    PendingConcat([Hello], Groups(order, entries));
    PendingCommands(Others(ToSet(order), entries));
    assert Pending([Hello]) == [] by { assert [Hello][1..] == []; }
  }

  /** When nothing fails every pending command is sent exactly once. */
  lemma RecoveryIsPermutation(entries: Entries, attached: Option<string>)
    ensures multiset(Pending(Plan(entries, attached))) == multiset(entries)
  {
    var order := Order(entries, attached);
    FirstOccurrencesIs(if attached.Some? && Durable(attached.value)
                       then Remove(Targets(entries), attached.value) + [attached.value] else Targets(entries));
    GroupsPending(order, entries, {});
    assert {} + ToSet(order) == ToSet(order);
    OthersOfNothing(entries);
    PendingPlan(entries, attached);
  }

  // ---- Order within a session ----

  lemma {:induction false} OfConcat(key: Option<string>, a: Entries, b: Entries)
    ensures Of(key, a + b) == Of(key, a) + Of(key, b)
  {
    if a == [] {
      assert a + b == b;
    } else {
      assert (a + b)[1..] == a[1..] + b;
      OfConcat(key, a[1..], b);
    }
  }

  lemma {:induction false} OfOf(key: Option<string>, other: Option<string>, entries: Entries)
    ensures Of(key, Of(other, entries)) == if key == other then Of(key, entries) else []
  {
    if entries != [] {
      OfOf(key, other, entries[1..]);
      var rest := Of(other, entries[1..]);
      if SessionOf(entries[0].raw) == other { assert ([entries[0]] + rest)[1..] == rest; }
    }
  }

  lemma {:induction false} OfOthers(key: Option<string>, keys: set<Option<string>>, entries: Entries)
    ensures Of(key, Others(keys, entries)) == if key in keys then [] else Of(key, entries)
  {
    if entries != [] {
      OfOthers(key, keys, entries[1..]);
      var rest := Others(keys, entries[1..]);
      if SessionOf(entries[0].raw) !in keys { assert ([entries[0]] + rest)[1..] == rest; }
    }
  }

  lemma {:induction false} OfGroups(key: Option<string>, order: seq<string>, entries: Entries)
    requires forall i, j :: 0 <= i < j < |order| ==> order[i] != order[j]
    ensures Of(key, Pending(Groups(order, entries))) == if key in ToSet(order) then Of(key, entries) else []
    decreases |order|
  {
    if order != [] {
      var rest := order[1..];
      assert order == [order[0]] + rest && order[0] !in rest;
      assert ToSet(order) == {Some(order[0])} + ToSet(rest);
      PendingGroup(order, entries);
      OfConcat(key, Of(Some(order[0]), entries), Pending(Groups(rest, entries)));
      OfOf(key, Some(order[0]), entries);
      OfGroups(key, rest, entries);
    }
  }

  /** The commands of one session, and those of none, are sent in the order in which they were queued. */
  lemma RecoveryKeepsOrder(entries: Entries, attached: Option<string>, key: Option<string>)
    ensures Of(key, Pending(Plan(entries, attached))) == Of(key, entries)
  {
    var order := Order(entries, attached);
    FirstOccurrencesIs(if attached.Some? && Durable(attached.value)
                       then Remove(Targets(entries), attached.value) + [attached.value] else Targets(entries));
    PendingPlan(entries, attached);
    OfConcat(key, Pending(Groups(order, entries)), Others(ToSet(order), entries));
    OfGroups(key, order, entries);
    OfOthers(key, ToSet(order), entries);
  }

  // ---- Placement ----

  lemma {:induction false} TargetsAre(entries: Entries)
    ensures forall x :: x in Targets(entries) ==> Durable(x)
    ensures forall e :: e in entries && TargetOf(e).Some? ==> TargetOf(e).value in Targets(entries)
  {
    if entries != [] {
      TargetsAre(entries[1..]);
      assert entries == [entries[0]] + entries[1..];
    }
  }

  /** Every durable target has a group, all groups are durable, and the attached session's is the last. */
  lemma OrderCovers(entries: Entries, attached: Option<string>)
    ensures var order := Order(entries, attached);
            && (forall i, j :: 0 <= i < j < |order| ==> order[i] != order[j])
            && (forall x :: x in order ==> Durable(x))
            && (forall e :: e in entries && TargetOf(e).Some? ==> TargetOf(e).value in order)
            && (attached.Some? && Durable(attached.value) ==> order != [] && order[|order| - 1] == attached.value)
  {
    TargetsAre(entries);
    if attached.Some? && Durable(attached.value) {
      var others := Remove(Targets(entries), attached.value);
      RemoveIs(Targets(entries), attached.value);
      FirstOccurrencesIs(others + [attached.value]);
      NewLast(others, attached.value);
    } else {
      FirstOccurrencesIs(Targets(entries));
    }
  }

  lemma {:induction false} NewLast(xs: seq<string>, x: string)
    requires x !in xs
    ensures FirstOccurrences(xs + [x]) == FirstOccurrences(xs) + [x]
    decreases |xs|
  {
    if xs == [] {
      assert xs + [x] == [x] && [x][1..] == [];
      assert Remove([], x) == [];
    } else {
      assert (xs + [x])[1..] == xs[1..] + [x];
      NewLast(xs[1..], x);
      RemoveAppend(FirstOccurrences(xs[1..]), x, xs[0]);
    }
  }

  lemma {:induction false} RemoveAppend(xs: seq<string>, x: string, y: string)
    requires x != y
    ensures Remove(xs + [x], y) == Remove(xs, y) + [x]
  {
    if xs == [] {
      assert xs + [x] == [x] && [x][1..] == [];
    } else {
      assert (xs + [x])[1..] == xs[1..] + [x];
      RemoveAppend(xs[1..], x, y);
    }
  }

  /** A command of session `sid` at `i`, right behind its switch and other commands of that session. */
  predicate BehindSwitch(sent: seq<Sent>, i: nat, sid: string) {
    exists j :: 0 <= j < i < |sent| && sent[j] == Switch(sid) && forall k :: j < k < i ==> IsFor(sent[k], sid)
  }

  predicate IsFor(s: Sent, sid: string) {
    s.Command? && SessionOf(s.entry.raw) == Some(sid)
  }

  lemma {:induction false} OfIsFor(key: Option<string>, entries: Entries)
    ensures forall k :: 0 <= k < |Of(key, entries)| ==>
            SessionOf(Of(key, entries)[k].raw) == key && Of(key, entries)[k] in entries
  {
    if entries != [] {
      OfIsFor(key, entries[1..]);
      assert entries == [entries[0]] + entries[1..];
    }
  }

  lemma {:induction false} OthersAreNot(keys: set<Option<string>>, entries: Entries)
    ensures forall k :: 0 <= k < |Others(keys, entries)| ==>
              SessionOf(Others(keys, entries)[k].raw) !in keys && Others(keys, entries)[k] in entries
  {
    if entries != [] {
      OthersAreNot(keys, entries[1..]);
      assert entries == [entries[0]] + entries[1..];
    }
  }

  lemma {:induction false} GroupsArePlaced(order: seq<string>, entries: Entries, i: nat)
    requires i < |Groups(order, entries)|
    ensures Groups(order, entries)[i].Switch? || Groups(order, entries)[i].Command?
    ensures Groups(order, entries)[i].Switch? ==> Groups(order, entries)[i].sid in order
    ensures Groups(order, entries)[i].Command? ==>
              var sid := SessionOf(Groups(order, entries)[i].entry.raw);
              sid.Some? && sid.value in order && BehindSwitch(Groups(order, entries), i, sid.value)
    decreases |order|
  {
    var head, commands, rest := [Switch(order[0])], Commands(Of(Some(order[0]), entries)), Groups(order[1..], entries);
    var all := Groups(order, entries);
    OfIsFor(Some(order[0]), entries);
    assert order == [order[0]] + order[1..];
    var n := |head + commands|;
    if i < n {
      assert all[0] == Switch(order[0]);
      forall k | 0 < k < n ensures IsFor(all[k], order[0]) {
        assert all[k] == commands[k - 1];
      }
    } else {
      GroupsArePlaced(order[1..], entries, i - n);
      assert all[i] == rest[i - n];
      if all[i].Command? {
        BehindLater(head + commands, rest, i - n, SessionOf(all[i].entry.raw).value);
      }
    }
  }

  lemma BehindLater(a: seq<Sent>, b: seq<Sent>, i: nat, sid: string)
    requires BehindSwitch(b, i, sid)
    ensures BehindSwitch(a + b, |a| + i, sid)
  {
    var j :| 0 <= j < i < |b| && b[j] == Switch(sid) && forall k :: j < k < i ==> IsFor(b[k], sid);
    var all := a + b;
    assert all[|a| + j] == Switch(sid);
    forall k | |a| + j < k < |a| + i ensures IsFor(all[k], sid) {
      assert all[k] == b[k - |a|];
    }
  }

  lemma BehindSooner(a: seq<Sent>, b: seq<Sent>, i: nat, sid: string)
    requires BehindSwitch(a, i, sid)
    ensures BehindSwitch(a + b, i, sid)
  {
    var j :| 0 <= j < i < |a| && a[j] == Switch(sid) && forall k :: j < k < i ==> IsFor(a[k], sid);
    var all := a + b;
    assert all[j] == Switch(sid);
    forall k | j < k < i ensures IsFor(all[k], sid) {
      assert all[k] == a[k];
    }
  }

  lemma OthersHaveNoTarget(entries: Entries, attached: Option<string>)
    ensures forall e :: e in Others(ToSet(Order(entries, attached)), entries) ==> TargetOf(e).None?
  {
    var order := Order(entries, attached);
    OrderCovers(entries, attached);
    OthersAreNot(ToSet(order), entries);
    forall e | e in Others(ToSet(order), entries) ensures e in entries && SessionOf(e.raw) !in ToSet(order) {
      var k :| 0 <= k < |Others(ToSet(order), entries)| && Others(ToSet(order), entries)[k] == e;
    }
  }

  /**
   A command for a durable session directly follows the switch to it; a command for none comes after every
   switch and every such command.
   */
  lemma RecoveryPlacesCommands(entries: Entries, attached: Option<string>, i: nat)
    requires i < |Plan(entries, attached)| && Plan(entries, attached)[i].Command?
    ensures var plan := Plan(entries, attached);
            var e := plan[i].entry;
            if TargetOf(e).Some? then BehindSwitch(plan, i, TargetOf(e).value)
            else forall k :: i < k < |plan| ==> plan[k].Command? && TargetOf(plan[k].entry).None?
  {
    var order := Order(entries, attached);
    var plan, groups, rest := Plan(entries, attached), Groups(order, entries), Commands(Others(ToSet(order), entries));
    OthersHaveNoTarget(entries, attached);
    var e := plan[i].entry;
    if i < 1 + |groups| {
      OrderCovers(entries, attached);
      GroupsArePlaced(order, entries, i - 1);
      assert plan[i] == groups[i - 1];
      var sid := SessionOf(e.raw).value;
      BehindLater([Hello], groups, i - 1, sid);
      BehindSooner([Hello] + groups, rest, i, sid);
    } else {
      forall k | i <= k < |plan| ensures plan[k].Command? && TargetOf(plan[k].entry).None? {
        assert plan[k] == Command(Others(ToSet(order), entries)[k - 1 - |groups|]);
      }
    }
  }

  /** The attached session is switched to after every other one. */
  lemma AttachedComesLast(entries: Entries, attached: string, i: nat)
    requires Durable(attached) && i < |Plan(entries, Some(attached))| &&
             Plan(entries, Some(attached))[i] == Switch(attached)
    ensures forall k :: i < k < |Plan(entries, Some(attached))| ==> !Plan(entries, Some(attached))[k].Switch?
  {
    var order := Order(entries, Some(attached));
    OrderCovers(entries, Some(attached));
    var plan, groups := Plan(entries, Some(attached)), Groups(order, entries);
    assert plan[i] == groups[i - 1];
    LastSwitch(order, entries, i - 1);
    forall k | i < k < |plan| ensures !plan[k].Switch? {
      if k < 1 + |groups| { assert plan[k] == groups[k - 1]; }
    }
  }

  lemma {:induction false} LastSwitch(order: seq<string>, entries: Entries, i: nat)
    requires forall i, j :: 0 <= i < j < |order| ==> order[i] != order[j]
    requires order != [] && i < |Groups(order, entries)| && Groups(order, entries)[i] == Switch(order[|order| - 1])
    ensures forall k :: i < k < |Groups(order, entries)| ==> !Groups(order, entries)[k].Switch?
    decreases |order|
  {
    var head, commands, rest := [Switch(order[0])], Commands(Of(Some(order[0]), entries)), Groups(order[1..], entries);
    var all, n := Groups(order, entries), 1 + |commands|;
    forall k | 0 < k < n ensures all[k] == commands[k - 1] {}
    forall k | n <= k < |all| ensures all[k] == rest[k - n] {}
    if |order| == 1 {
      assert rest == [];
    } else {
      assert i >= n;
      LastSwitch(order[1..], entries, i - n);
    }
  }

  // ---- Sending ----

  /** `ok(n)` says whether the n-th send gets through; the first failure ends the recovery. */
  class Connection {
    const ok: nat -> bool
    var sent: seq<Sent>

    constructor (ok: nat -> bool)
      ensures this.ok == ok && sent == []
    {
      this.ok := ok;
      sent := [];
    }

    method SendRaw(s: Sent) returns (done: bool)
      modifies this`sent
      ensures done == ok(|old(sent)|)
      ensures sent == if done then old(sent) + [s] else old(sent)
    {
      done := ok(|sent|);
      if done {
        sent := sent + [s];
      }
    }

    /** The commands one after the other until one fails. */
    method SendCommands(entries: Entries) returns (done: bool)
      modifies this`sent
      ensures old(sent) <= sent <= old(sent) + Commands(entries)
      ensures done ==> sent == old(sent) + Commands(entries)
      ensures !done ==> !ok(|sent|) && |sent| < |old(sent)| + |entries|
    {
      for i := 0 to |entries|
        invariant sent == old(sent) + Commands(entries)[..i]
      {
        var through := SendRaw(Command(entries[i]));
        if !through {
          return false;
        }
        assert Commands(entries)[..i + 1] == Commands(entries)[..i] + [Command(entries[i])];
      }
      assert Commands(entries)[..|entries|] == Commands(entries);
      return true;
    }

    /** One session: its switch and its commands. */
    method SendGroup(sid: string, entries: Entries) returns (done: bool)
      modifies this`sent
      ensures old(sent) <= sent <= old(sent) + Group(sid, entries)
      ensures done ==> sent == old(sent) + Group(sid, entries)
      ensures !done ==> !ok(|sent|)
    {
      var through := SendRaw(Switch(sid));
      if !through {
        return false;
      }
      assert old(sent) + [Switch(sid)] + Commands(Of(Some(sid), entries)) == old(sent) + Group(sid, entries);
      done := SendCommands(Of(Some(sid), entries));
    }

    method SendGroups(order: seq<string>, entries: Entries) returns (done: bool)
      modifies this`sent
      ensures old(sent) <= sent <= old(sent) + Groups(order, entries)
      ensures done ==> sent == old(sent) + Groups(order, entries)
      ensures !done ==> !ok(|sent|)
    {
      ghost var start := sent;
      assert order[0..] == order && sent + [] == sent;
      for i := 0 to |order|
        invariant start <= sent && start + Groups(order, entries) == sent + Groups(order[i..], entries)
      {
        GroupsFrom(order, i, entries);
        Regroup(sent, Group(order[i], entries), Groups(order[i + 1..], entries));
        var through := SendGroup(order[i], entries);
        if !through {
          return false;
        }
      }
      assert order[|order|..] == [];
      return true;
    }

    method Replay(order: seq<string>, entries: Entries, others: Entries)
      requires sent == []
      modifies this`sent
      ensures sent <= [Hello] + Groups(order, entries) + Commands(others)
      ensures sent == [Hello] + Groups(order, entries) + Commands(others) || !ok(|sent|)
    {
      var through := SendRaw(Hello);
      if !through {
        return;
      }
      assert sent == [Hello];
      through := SendGroups(order, entries);
      if !through {
        PrefixMore(sent, [Hello] + Groups(order, entries), Commands(others));
        return;
      }
      through := SendCommands(others);
    }

    /** What got through is a prefix of the plan: all of it, or up to the first send that failed. */
    method Recover(entries: Entries, attached: Option<string>)
      requires sent == []
      modifies this`sent
      ensures sent <= Plan(entries, attached)
      ensures sent == Plan(entries, attached) || !ok(|sent|)
    {
      var order := Order(entries, attached);
      Replay(order, entries, Others(ToSet(order), entries));
    }
  }

  lemma PrefixMore(x: seq<Sent>, a: seq<Sent>, b: seq<Sent>)
    requires x <= a
    ensures x <= a + b
  {
  }

  lemma GroupsFrom(order: seq<string>, i: nat, entries: Entries)
    requires i < |order|
    ensures Groups(order[i..], entries) == Group(order[i], entries) + Groups(order[i + 1..], entries)
  {
    assert order[i..][0] == order[i] && order[i..][1..] == order[i + 1..];
  }
}
