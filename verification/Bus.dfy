/** The in-memory broker of src/bus/backend.py: append-only streams with one
    idempotency key per entry, consumer-group cursors and pending sets, and a
    dead-letter queue.  A message id `n-0` is represented by its number `n`. */
module Bus {
  import opened Common

  // ---------------------------------------------------------------- events

  datatype Node = NotADict | Dict(nodeType: string, params: string)

  datatype Payload =
    | Dispatch(nodeId: string, node: Node)
    | FinishedBody(nodeId: string, output: string)
    | FailedBody(nodeId: string, error: string)
    | OtherBody(body: string)

  /** `run` is the correlation id; the uuid, the source and the time of an event
      take no part in any decision and are left out. */
  datatype Event = Event(kind: string, key: string, run: string, payload: Payload)

  datatype Entry = Entry(id: nat, event: Event)

  datatype Parked = Parked(id: nat, event: Event, reason: string)

  // ----------------------------------------------------------------- state

  datatype State = State(
    streams: map<string, seq<Entry>>,
    keys: map<string, map<string, nat>>,
    cursors: map<(string, string), nat>,
    pending: map<(string, string), map<nat, Event>>,
    dlq: map<string, seq<Parked>>,
    seqNo: nat)

  const Empty: State := State(map[], map[], map[], map[], map[], 0)

  function Entries(b: State, s: string): seq<Entry> {
    if s in b.streams then b.streams[s] else []
  }

  function KeysOf(b: State, s: string): map<string, nat> {
    if s in b.keys then b.keys[s] else map[]
  }

  function Cursor(b: State, s: string, g: string): nat {
    if (s, g) in b.cursors then b.cursors[(s, g)] else 0
  }

  function PendingOf(b: State, s: string, g: string): map<nat, Event> {
    if (s, g) in b.pending then b.pending[(s, g)] else map[]
  }

  function DlqOf(b: State, s: string): seq<Parked> {
    if s in b.dlq then b.dlq[s] else []
  }

  // ------------------------------------------------------------ operations

  function Publish(b: State, s: string, e: Event): State {
    if e.key in KeysOf(b, s) then b
    else
      b.(seqNo := b.seqNo + 1,
         streams := b.streams[s := Entries(b, s) + [Entry(b.seqNo + 1, e)]],
         keys := b.keys[s := KeysOf(b, s)[e.key := b.seqNo + 1]])
  }

  function PublishId(b: State, s: string, e: Event): nat {
    if e.key in KeysOf(b, s) then KeysOf(b, s)[e.key] else b.seqNo + 1
  }

  function EnsureGroup(b: State, s: string, g: string): State {
    b.(streams := b.streams[s := Entries(b, s)],
       cursors := b.cursors[(s, g) := Cursor(b, s, g)],
       pending := b.pending[(s, g) := PendingOf(b, s, g)])
  }

  /** The entries a cursor has not passed, in stream order. */
  function Fresh(entries: seq<Entry>, cursor: nat): seq<Entry> {
    if entries == [] then []
    else if entries[0].id > cursor then [entries[0]] + Fresh(entries[1..], cursor)
    else Fresh(entries[1..], cursor)
  }

  /** Python's `xs[:count]`, which drops from the end when `count` is negative. */
  function SliceTo<T>(xs: seq<T>, count: int): seq<T> {
    if count >= 0 then if count <= |xs| then xs[..count] else xs
    else if |xs| + count >= 0 then xs[..|xs| + count] else []
  }

  function Batch(b: State, s: string, g: string, count: int): seq<Entry> {
    SliceTo(Fresh(Entries(b, s), Cursor(b, s, g)), count)
  }

  function AddPending(m: map<nat, Event>, batch: seq<Entry>): map<nat, Event> {
    if batch == [] then m
    else AddPending(m, batch[..|batch| - 1])[batch[|batch| - 1].id := batch[|batch| - 1].event]
  }

  function NextCursor(cursor: nat, batch: seq<Entry>): nat {
    if batch == [] then cursor else batch[|batch| - 1].id
  }

  function ReadGroup(b: State, s: string, g: string, count: int): State {
    var batch := Batch(b, s, g, count);
    b.(streams := b.streams[s := Entries(b, s)],
       cursors := b.cursors[(s, g) := NextCursor(Cursor(b, s, g), batch)],
       pending := b.pending[(s, g) := AddPending(PendingOf(b, s, g), batch)])
  }

  function Acknowledge(b: State, s: string, g: string, id: nat): State {
    if (s, g) in b.pending then b.(pending := b.pending[(s, g) := b.pending[(s, g)] - {id}]) else b
  }

  function ToDlq(b: State, s: string, e: Event, reason: string): State {
    b.(seqNo := b.seqNo + 1, dlq := b.dlq[s := DlqOf(b, s) + [Parked(b.seqNo + 1, e, reason)]])
  }

  predicate InBounds(id: nat, start: int, end: Option<int>) { start <= id && (end.Some? ==> id <= end.value) }

  function InRange(entries: seq<Entry>, start: int, end: Option<int>): seq<Entry> {
    if entries == [] then []
    else
      InRange(entries[..|entries| - 1], start, end) +
      (if InBounds(entries[|entries| - 1].id, start, end) then [entries[|entries| - 1]] else [])
  }

  // ------------------------------------------------------------- invariant

  predicate Ascending(entries: seq<Entry>) {
    forall i, j :: 0 <= i < j < |entries| ==> entries[i].id < entries[j].id
  }

  /** Strictly increasing ids up to `top`, and the key index is exactly the
      key-to-id relation of the entries: one entry per key. */
  predicate StreamOk(entries: seq<Entry>, keys: map<string, nat>, top: nat) {
    && Ascending(entries)
    && (forall i :: 0 <= i < |entries| ==> 1 <= entries[i].id <= top)
    && (forall i :: 0 <= i < |entries| ==>
          entries[i].event.key in keys && keys[entries[i].event.key] == entries[i].id)
    && (forall k :: k in keys ==> Names(entries, k, keys[k]))
  }

  predicate Names(entries: seq<Entry>, key: string, id: nat) {
    exists i :: 0 <= i < |entries| && entries[i].id == id && entries[i].event.key == key
  }

  /** Whatever is pending was delivered and is the entry the stream holds. */
  predicate GroupOk(entries: seq<Entry>, cursor: nat, pending: map<nat, Event>, top: nat) {
    && cursor <= top
    && forall id :: id in pending ==> id <= cursor && Entry(id, pending[id]) in entries
  }

  predicate StreamInv(b: State, s: string) {
    StreamOk(Entries(b, s), KeysOf(b, s), b.seqNo)
  }

  predicate GroupInv(b: State, s: string, g: string) {
    GroupOk(Entries(b, s), Cursor(b, s, g), PendingOf(b, s, g), b.seqNo)
  }

  ghost predicate Inv(b: State) {
    && (forall s :: StreamInv(b, s))
    && (forall s, g :: GroupInv(b, s, g))
  }

  /** `k` is where the cursor cuts the stream: delivered before it, fresh from it on. */
  predicate CutAt(entries: seq<Entry>, cursor: nat, k: nat)
    requires k <= |entries|
  {
    && (forall i :: 0 <= i < k ==> entries[i].id <= cursor)
    && (forall i :: k <= i < |entries| ==> entries[i].id > cursor)
  }

  lemma {:induction false} FreshIsSuffix(entries: seq<Entry>, cursor: nat) returns (k: nat)
    requires Ascending(entries)
    ensures k <= |entries| && Fresh(entries, cursor) == entries[k..]
    ensures CutAt(entries, cursor, k)
  {
    if entries == [] {
      k := 0;
    } else {
      var rest := FreshIsSuffix(entries[1..], cursor);
      assert forall i :: 0 < i < |entries| ==> entries[i] == entries[1..][i - 1];
      if entries[0].id > cursor {
        k := 0;
        if |entries| > 1 { assert entries[1..][0] == entries[1]; }
        assert [entries[0]] + entries[1..] == entries;
      } else {
        k := rest + 1;
        assert entries[1..][rest..] == entries[k..];
      }
    }
  }

  lemma CutUnique(entries: seq<Entry>, cursor: nat, k: nat, l: nat)
    requires k <= |entries| && CutAt(entries, cursor, k)
    requires l <= |entries| && CutAt(entries, cursor, l)
    ensures k == l
  {
    var least := if k < l then k else l;
    if least < |entries| {
      var _ := entries[least];
    }
  }

  lemma {:induction false} AddPendingAt(m: map<nat, Event>, batch: seq<Entry>, id: nat)
    requires Ascending(batch)
    ensures id in AddPending(m, batch) <==> id in m || exists i :: 0 <= i < |batch| && batch[i].id == id
    ensures forall i :: 0 <= i < |batch| && batch[i].id == id ==> AddPending(m, batch)[id] == batch[i].event
    ensures id in m && (forall i :: 0 <= i < |batch| ==> batch[i].id != id) ==> AddPending(m, batch)[id] == m[id]
  {
    if batch != [] {
      var n := |batch| - 1;
      var init := batch[..n];
      AddPendingAt(m, init, id);
      assert forall i :: 0 <= i < n ==> init[i] == batch[i];
    }
  }

  /** What one read does: the batch is the next stretch of the stream, and the
      cursor passes exactly the batch. */
  lemma ReadAdvances(entries: seq<Entry>, cursor: nat, count: int) returns (k: nat, n: nat)
    requires Ascending(entries)
    ensures k + n <= |entries|
    ensures SliceTo(Fresh(entries, cursor), count) == entries[k..k + n]
    ensures CutAt(entries, cursor, k)
    ensures CutAt(entries, NextCursor(cursor, entries[k..k + n]), k + n)
    ensures count >= 1 && n == 0 ==> k == |entries|
  {
    k := FreshIsSuffix(entries, cursor);
    var batch := SliceTo(entries[k..], count);
    n := |batch|;
    assert batch == entries[k..k + n];
    if n > 0 {
      assert batch[n - 1] == entries[k + n - 1];
    }
  }

  lemma StretchAscends(entries: seq<Entry>, k: nat, n: nat)
    requires Ascending(entries) && k + n <= |entries|
    ensures Ascending(entries[k..k + n])
  {
    var part := entries[k..k + n];
    forall i, j | 0 <= i < j < |part| ensures part[i].id < part[j].id {
      assert part[i] == entries[k + i] && part[j] == entries[k + j];
    }
  }

  /** The pending set after a read: what was pending plus the ids of the batch. */
  lemma ReadPending(entries: seq<Entry>, m: map<nat, Event>, k: nat, n: nat, id: nat)
    requires Ascending(entries) && k + n <= |entries|
    ensures var m' := AddPending(m, entries[k..k + n]);
            && (id in m' <==> id in m || exists i :: k <= i < k + n && entries[i].id == id)
            && (id in m' ==> (id in m && m'[id] == m[id]) || Entry(id, m'[id]) in entries[k..k + n])
  {
    var batch := entries[k..k + n];
    StretchAscends(entries, k, n);
    AddPendingAt(m, batch, id);
    if i :| k <= i < k + n && entries[i].id == id {
      assert batch[i - k].id == id;
    }
    if j :| 0 <= j < |batch| && batch[j].id == id {
      assert entries[k + j].id == id && batch[j] == Entry(id, AddPending(m, batch)[id]);
    }
  }

  lemma StreamExtends(entries: seq<Entry>, keys: map<string, nat>, top: nat, e: Event,
                      entries': seq<Entry>, keys': map<string, nat>)
    requires StreamOk(entries, keys, top) && e.key !in keys
    requires entries' == entries + [Entry(top + 1, e)] && keys' == keys[e.key := top + 1]
    ensures StreamOk(entries', keys', top + 1)
  {
    forall k | k in keys' ensures Names(entries', k, keys'[k]) {
      if k == e.key {
        assert entries'[|entries|].id == keys'[k];
      } else {
        assert Names(entries, k, keys[k]);
        var i :| 0 <= i < |entries| && entries[i].id == keys[k] && entries[i].event.key == k;
        assert entries'[i] == entries[i];
      }
    }
  }

  lemma StreamRises(entries: seq<Entry>, keys: map<string, nat>, top: nat)
    requires StreamOk(entries, keys, top)
    ensures StreamOk(entries, keys, top + 1)
  {
  }

  lemma PublishStream(b: State, s: string, e: Event, t: string)
    requires StreamInv(b, t)
    ensures StreamInv(Publish(b, s, e), t)
  {
    var b' := Publish(b, s, e);
    if e.key !in KeysOf(b, s) {
      if t == s {
        StreamExtends(Entries(b, s), KeysOf(b, s), b.seqNo, e, Entries(b', s), KeysOf(b', s));
      } else {
        StreamRises(Entries(b', t), KeysOf(b', t), b.seqNo);
      }
    }
  }

  lemma PublishGroup(b: State, s: string, e: Event, t: string, g: string)
    requires GroupInv(b, t, g)
    ensures GroupInv(Publish(b, s, e), t, g)
  {
  }

  lemma PublishKeepsInv(b: State, s: string, e: Event)
    requires Inv(b)
    ensures Inv(Publish(b, s, e))
  {
    forall t ensures StreamInv(Publish(b, s, e), t) { PublishStream(b, s, e, t); }
    forall t, g ensures GroupInv(Publish(b, s, e), t, g) { PublishGroup(b, s, e, t, g); }
  }

  lemma ReadCell(entries: seq<Entry>, cursor: nat, pending: map<nat, Event>, top: nat, k: nat, n: nat)
    requires Ascending(entries) && k + n <= |entries|
    requires forall i :: 0 <= i < |entries| ==> entries[i].id <= top
    requires GroupOk(entries, cursor, pending, top) && CutAt(entries, cursor, k)
    ensures var batch := entries[k..k + n];
            GroupOk(entries, NextCursor(cursor, batch), AddPending(pending, batch), top)
  {
    var batch := entries[k..k + n];
    var cursor', pending' := NextCursor(cursor, batch), AddPending(pending, batch);
    if n > 0 { assert batch[n - 1] == entries[k + n - 1]; }
    forall id | id in pending' ensures id <= cursor' && Entry(id, pending'[id]) in entries {
      ReadPending(entries, pending, k, n, id);
    }
  }

  lemma ReadGroupCell(b: State, s: string, g: string, count: int)
    requires StreamInv(b, s) && GroupInv(b, s, g)
    ensures GroupInv(ReadGroup(b, s, g, count), s, g)
  {
    var k, n := ReadAdvances(Entries(b, s), Cursor(b, s, g), count);
    ReadCell(Entries(b, s), Cursor(b, s, g), PendingOf(b, s, g), b.seqNo, k, n);
  }

  lemma ReadStreamCell(b: State, s: string, g: string, count: int, t: string)
    requires StreamInv(b, t)
    ensures StreamInv(ReadGroup(b, s, g, count), t)
  {
  }

  lemma ReadOtherCell(b: State, s: string, g: string, count: int, t: string, h: string)
    requires GroupInv(b, t, h) && (t, h) != (s, g)
    ensures GroupInv(ReadGroup(b, s, g, count), t, h)
  {
  }

  lemma ReadKeepsInv(b: State, s: string, g: string, count: int)
    requires Inv(b)
    ensures Inv(ReadGroup(b, s, g, count))
  {
    forall t ensures StreamInv(ReadGroup(b, s, g, count), t) { ReadStreamCell(b, s, g, count, t); }
    forall t, h ensures GroupInv(ReadGroup(b, s, g, count), t, h) {
      if (t, h) == (s, g) {
        assert StreamInv(b, s);
        ReadGroupCell(b, s, g, count);
      } else {
        ReadOtherCell(b, s, g, count, t, h);
      }
    }
  }

  lemma AckKeepsInv(b: State, s: string, g: string, id: nat)
    requires Inv(b)
    ensures Inv(Acknowledge(b, s, g, id))
  {
    var b' := Acknowledge(b, s, g, id);
    forall t ensures StreamInv(b', t) { assert StreamInv(b, t); }
    forall t, h ensures GroupInv(b', t, h) { assert GroupInv(b, t, h); }
  }

  lemma EnsureKeepsInv(b: State, s: string, g: string)
    requires Inv(b)
    ensures Inv(EnsureGroup(b, s, g))
  {
    var b' := EnsureGroup(b, s, g);
    forall t ensures StreamInv(b', t) { assert StreamInv(b, t); }
    forall t, h ensures GroupInv(b', t, h) { assert GroupInv(b, t, h); }
  }

  lemma ParkKeepsInv(b: State, s: string, e: Event, reason: string)
    requires Inv(b)
    ensures Inv(ToDlq(b, s, e, reason))
  {
    var b' := ToDlq(b, s, e, reason);
    forall t ensures StreamInv(b', t) { assert StreamInv(b, t); }
    forall t, h ensures GroupInv(b', t, h) { assert GroupInv(b, t, h); }
  }

  // ---------------------------------------------- laws over whole histories

  datatype Op =
    | PublishOp(s: string, e: Event)
    | EnsureOp(s: string, g: string)
    | ReadOp(s: string, g: string, count: int)
    | AckOp(s: string, g: string, id: nat)
    | ParkOp(s: string, e: Event, reason: string)
    | ResetOp

  function Do(b: State, op: Op): State {
    match op
    case PublishOp(s, e) => Publish(b, s, e)
    case EnsureOp(s, g) => EnsureGroup(b, s, g)
    case ReadOp(s, g, count) => ReadGroup(b, s, g, count)
    case AckOp(s, g, id) => Acknowledge(b, s, g, id)
    case ParkOp(s, e, reason) => ToDlq(b, s, e, reason)
    case ResetOp => Empty
  }

  function After(ops: seq<Op>): State {
    if ops == [] then Empty else Do(After(ops[..|ops| - 1]), ops[|ops| - 1])
  }

  /** Everything group `g` was handed from stream `s`, in the order it was handed. */
  function Received(ops: seq<Op>, s: string, g: string): seq<Entry> {
    if ops == [] then []
    else
      var before, last := ops[..|ops| - 1], ops[|ops| - 1];
      if last.ResetOp? then []
      else if last.ReadOp? && last.s == s && last.g == g then
        Received(before, s, g) + Batch(After(before), s, g, last.count)
      else Received(before, s, g)
  }

  /** The deliveries whose acknowledgement took them out of the pending set. */
  function Acked(ops: seq<Op>, s: string, g: string): set<nat> {
    if ops == [] then {}
    else
      var before, last := ops[..|ops| - 1], ops[|ops| - 1];
      if last.ResetOp? then {}
      else if last.AckOp? && last.s == s && last.g == g && last.id in PendingOf(After(before), s, g) then
        Acked(before, s, g) + {last.id}
      else Acked(before, s, g)
  }

  function Ids(entries: seq<Entry>): set<nat> {
    set i | 0 <= i < |entries| :: entries[i].id
  }

  /** `received` is the part of the stream the cursor has passed, and it splits
      into what is still pending and what was acknowledged. */
  predicate Balanced(entries: seq<Entry>, cursor: nat, pending: set<nat>, received: seq<Entry>, acked: set<nat>) {
    && received <= entries
    && CutAt(entries, cursor, |received|)
    && pending !! acked
    && pending + acked == Ids(received)
  }

  predicate Ledger(b: State, received: seq<Entry>, acked: set<nat>, s: string, g: string) {
    Balanced(Entries(b, s), Cursor(b, s, g), PendingOf(b, s, g).Keys, received, acked)
  }

  lemma IdsOfConcat(xs: seq<Entry>, ys: seq<Entry>)
    ensures Ids(xs + ys) == Ids(xs) + Ids(ys)
  {
    var zs := xs + ys;
    forall id | id in Ids(xs) + Ids(ys) ensures id in Ids(zs) {
      if id in Ids(xs) {
        var i :| 0 <= i < |xs| && xs[i].id == id;
        assert zs[i].id == id;
      } else {
        var i :| 0 <= i < |ys| && ys[i].id == id;
        assert zs[|xs| + i].id == id;
      }
    }
    forall id | id in Ids(zs) ensures id in Ids(xs) + Ids(ys) {
      var i :| 0 <= i < |zs| && zs[i].id == id;
      if i < |xs| { assert xs[i].id == id; } else { assert ys[i - |xs|].id == id; }
    }
  }

  lemma AddPendingKeys(m: map<nat, Event>, batch: seq<Entry>)
    requires Ascending(batch)
    ensures AddPending(m, batch).Keys == m.Keys + Ids(batch)
  {
    forall id ensures id in AddPending(m, batch) <==> id in m || id in Ids(batch) {
      AddPendingAt(m, batch, id);
    }
  }

  lemma DeliveryBalances(entries: seq<Entry>, cursor: nat, cursor': nat, pending: set<nat>, pending': set<nat>,
                         received: seq<Entry>, acked: set<nat>, batch: seq<Entry>)
    requires Ascending(entries) && Balanced(entries, cursor, pending, received, acked)
    requires |received| + |batch| <= |entries| && batch == entries[|received|..|received| + |batch|]
    requires CutAt(entries, cursor', |received| + |batch|)
    requires pending' == pending + Ids(batch)
    ensures Balanced(entries, cursor', pending', received + batch, acked)
  {
    var k := |received|;
    assert received + batch == entries[..k + |batch|];
    IdsOfConcat(received, batch);
    forall id | id in Ids(batch) ensures id !in Ids(received) {
      var i :| 0 <= i < |batch| && batch[i].id == id;
      assert batch[i] == entries[k + i];
      forall j | 0 <= j < |received| ensures received[j].id != id {
        assert received[j] == entries[j];
      }
    }
  }

  lemma ReadKeepsLedger(b: State, received: seq<Entry>, acked: set<nat>, s: string, g: string, count: int)
    requires Ascending(Entries(b, s)) && Ledger(b, received, acked, s, g)
    ensures Ledger(ReadGroup(b, s, g, count), received + Batch(b, s, g, count), acked, s, g)
  {
    var k, n := ReadAdvances(Entries(b, s), Cursor(b, s, g), count);
    CutUnique(Entries(b, s), Cursor(b, s, g), k, |received|);
    StretchAscends(Entries(b, s), k, n);
    var b', batch := ReadGroup(b, s, g, count), Batch(b, s, g, count);
    AddPendingKeys(PendingOf(b, s, g), batch);
    DeliveryBalances(Entries(b', s), Cursor(b, s, g), Cursor(b', s, g), PendingOf(b, s, g).Keys,
                     PendingOf(b', s, g).Keys, received, acked, batch);
  }

  lemma AckKeepsLedger(b: State, received: seq<Entry>, acked: set<nat>, s: string, g: string, id: nat)
    requires Ledger(b, received, acked, s, g) && id in PendingOf(b, s, g)
    ensures Ledger(Acknowledge(b, s, g, id), received, acked + {id}, s, g)
  {
    var b' := Acknowledge(b, s, g, id);
    assert PendingOf(b', s, g).Keys == PendingOf(b, s, g).Keys - {id};
  }

  /** A call that is not a read or an effective acknowledgement by this group. */
  predicate Foreign(b: State, op: Op, s: string, g: string) {
    && !op.ResetOp?
    && !(op.ReadOp? && op.s == s && op.g == g)
    && !(op.AckOp? && op.s == s && op.g == g && op.id in PendingOf(b, s, g))
  }

  lemma AckMisses(b: State, t: string, h: string, id: nat, s: string, g: string)
    requires t == s && h == g ==> id !in PendingOf(b, s, g)
    ensures PendingOf(Acknowledge(b, t, h, id), s, g) == PendingOf(b, s, g)
  {
    if t == s && h == g { assert PendingOf(b, s, g) - {id} == PendingOf(b, s, g); }
  }

  /** Such a call leaves this group's cursor and pending ids alone, and can only
      append to the stream, beyond the cursor. */
  lemma ForeignGroup(b: State, op: Op, s: string, g: string)
    requires Foreign(b, op, s, g)
    ensures Cursor(Do(b, op), s, g) == Cursor(b, s, g)
    ensures PendingOf(Do(b, op), s, g) == PendingOf(b, s, g)
  {
    match op
    case PublishOp(t, e) =>
    case EnsureOp(t, h) =>
    case ReadOp(t, h, count) => assert (t, h) != (s, g);
    case AckOp(t, h, id) => AckMisses(b, t, h, id, s, g);
    case ParkOp(t, e, reason) =>
  }

  lemma ForeignStream(b: State, op: Op, s: string, g: string)
    requires Cursor(b, s, g) <= b.seqNo && !op.ResetOp?
    ensures Entries(Do(b, op), s) == Entries(b, s)
            || exists e: Entry :: e.id > Cursor(b, s, g) && Entries(Do(b, op), s) == Entries(b, s) + [e]
  {
    if op.PublishOp? && op.s == s && op.e.key !in KeysOf(b, s) {
      var entry := Entry(b.seqNo + 1, op.e);
      assert entry.id > Cursor(b, s, g) && Entries(Do(b, op), s) == Entries(b, s) + [entry];
    }
  }

  lemma AppendBalances(entries: seq<Entry>, entries': seq<Entry>, cursor: nat, pending: set<nat>,
                       received: seq<Entry>, acked: set<nat>)
    requires Balanced(entries, cursor, pending, received, acked)
    requires entries' == entries || exists e: Entry :: e.id > cursor && entries' == entries + [e]
    ensures Balanced(entries', cursor, pending, received, acked)
  {
  }

  lemma ForeignKeepsLedger(b: State, received: seq<Entry>, acked: set<nat>, op: Op, s: string, g: string)
    requires GroupInv(b, s, g) && Ledger(b, received, acked, s, g) && Foreign(b, op, s, g)
    ensures Ledger(Do(b, op), received, acked, s, g)
  {
    ForeignGroup(b, op, s, g);
    ForeignStream(b, op, s, g);
    var b' := Do(b, op);
    AppendBalances(Entries(b, s), Entries(b', s), Cursor(b', s, g), PendingOf(b', s, g).Keys, received, acked);
  }

  lemma StepKeepsLedger(b: State, op: Op, received: seq<Entry>, acked: set<nat>,
                        received': seq<Entry>, acked': set<nat>, s: string, g: string)
    requires Ascending(Entries(b, s)) && GroupInv(b, s, g)
    requires Ledger(b, received, acked, s, g) && !op.ResetOp?
    requires received' == if op.ReadOp? && op.s == s && op.g == g
                          then received + Batch(b, s, g, op.count) else received
    requires acked' == if op.AckOp? && op.s == s && op.g == g && op.id in PendingOf(b, s, g)
                       then acked + {op.id} else acked
    ensures Ledger(Do(b, op), received', acked', s, g)
  {
    if Foreign(b, op, s, g) {
      ForeignKeepsLedger(b, received, acked, op, s, g);
    } else if op.ReadOp? {
      ReadKeepsLedger(b, received, acked, s, g, op.count);
    } else {
      AckKeepsLedger(b, received, acked, s, g, op.id);
    }
  }

  lemma OpKeepsInv(b: State, op: Op)
    requires Inv(b)
    ensures Inv(Do(b, op))
  {
    match op
    case PublishOp(s, e) => PublishKeepsInv(b, s, e);
    case EnsureOp(s, g) => EnsureKeepsInv(b, s, g);
    case ReadOp(s, g, count) => ReadKeepsInv(b, s, g, count);
    case AckOp(s, g, id) => AckKeepsInv(b, s, g, id);
    case ParkOp(s, e, reason) => ParkKeepsInv(b, s, e, reason);
    case ResetOp =>
  }

  lemma {:induction false} HistoryKeepsLedger(ops: seq<Op>, s: string, g: string)
    ensures Inv(After(ops)) && Ledger(After(ops), Received(ops, s, g), Acked(ops, s, g), s, g)
  {
    if ops != [] {
      var before, last := ops[..|ops| - 1], ops[|ops| - 1];
      HistoryKeepsLedger(before, s, g);
      OpKeepsInv(After(before), last);
      if !last.ResetOp? {
        assert StreamInv(After(before), s) && GroupInv(After(before), s, g);
        StepKeepsLedger(After(before), last, Received(before, s, g), Acked(before, s, g),
                        Received(ops, s, g), Acked(ops, s, g), s, g);
      }
    }
  }

  lemma {:induction false} IdsCountEntries(entries: seq<Entry>)
    requires Ascending(entries)
    ensures |Ids(entries)| == |entries|
  {
    if entries != [] {
      var n := |entries| - 1;
      var init, last := entries[..n], [entries[n]];
      IdsCountEntries(init);
      assert entries == init + last;
      IdsOfConcat(init, last);
      assert Ids(last) == {entries[n].id} by { assert last[0].id == entries[n].id; }
      forall i | 0 <= i < |init| ensures init[i].id != entries[n].id {
        assert init[i] == entries[i];
      }
    }
  }

  lemma BalancedCounts(entries: seq<Entry>, cursor: nat, pending: set<nat>, received: seq<Entry>, acked: set<nat>)
    requires Ascending(entries) && Balanced(entries, cursor, pending, received, acked)
    ensures Fresh(entries, cursor) == entries[|received|..]
    ensures |entries| == |Fresh(entries, cursor)| + |pending| + |acked|
  {
    var k := FreshIsSuffix(entries, cursor);
    CutUnique(entries, cursor, k, |received|);
    StretchAscends(entries, 0, k);
    assert received == entries[0..k];
    IdsCountEntries(received);
    assert |pending + acked| == |pending| + |acked|;
  }

  lemma OneEntryPerKey(entries: seq<Entry>, keys: map<string, nat>, top: nat)
    requires StreamOk(entries, keys, top)
    ensures forall i, j :: 0 <= i < j < |entries| ==> entries[i].event.key != entries[j].event.key
  {
    forall i, j | 0 <= i < j < |entries| ensures entries[i].event.key != entries[j].event.key {
      assert entries[i].id < entries[j].id;
    }
  }

  /** After any history of broker calls, with any batch sizes: ids increase, a key
      names one entry, a group has received a prefix of the stream (so each entry
      once and in publish order), and every entry is either undelivered, pending
      or acknowledged. */
  lemma BrokerLaws(ops: seq<Op>, s: string, g: string)
    ensures var b := After(ops);
            && Ascending(Entries(b, s))
            && (forall i, j :: 0 <= i < j < |Entries(b, s)| ==>
                  Entries(b, s)[i].event.key != Entries(b, s)[j].event.key)
            && Received(ops, s, g) <= Entries(b, s)
            && Fresh(Entries(b, s), Cursor(b, s, g)) == Entries(b, s)[|Received(ops, s, g)|..]
            && |Entries(b, s)|
               == |Fresh(Entries(b, s), Cursor(b, s, g))| + |PendingOf(b, s, g).Keys| + |Acked(ops, s, g)|
  {
    HistoryKeepsLedger(ops, s, g);
    var b := After(ops);
    assert StreamInv(b, s);
    OneEntryPerKey(Entries(b, s), KeysOf(b, s), b.seqNo);
    BalancedCounts(Entries(b, s), Cursor(b, s, g), PendingOf(b, s, g).Keys, Received(ops, s, g), Acked(ops, s, g));
  }

  /** What was parked for a stream since the last reset, in order, with the reasons. */
  function ParkedBy(ops: seq<Op>, s: string): seq<(Event, string)> {
    if ops == [] then []
    else
      var before, last := ops[..|ops| - 1], ops[|ops| - 1];
      match last
      case ParkOp(t, e, reason) => if t == s then ParkedBy(before, s) + [(e, reason)] else ParkedBy(before, s)
      case ResetOp => []
      case _ => ParkedBy(before, s)
  }

  function Letters(parked: seq<Parked>): seq<(Event, string)> {
    seq(|parked|, i requires 0 <= i < |parked| => (parked[i].event, parked[i].reason))
  }

  /** The dead letters of a stream are exactly those, whatever else happens. */
  lemma {:induction false} DeadLettersExactly(ops: seq<Op>, s: string)
    ensures Letters(DlqOf(After(ops), s)) == ParkedBy(ops, s)
  {
    if ops != [] {
      var before, last := ops[..|ops| - 1], ops[|ops| - 1];
      DeadLettersExactly(before, s);
      LetterStep(After(before), last, s);
    }
  }

  lemma LetterStep(b: State, op: Op, s: string)
    ensures Letters(DlqOf(Do(b, op), s)) ==
            if op.ResetOp? then []
            else if op.ParkOp? && op.s == s then Letters(DlqOf(b, s)) + [(op.e, op.reason)]
            else Letters(DlqOf(b, s))
  {
  }

  /** From `i` to `j` the ids are in the range; before, below it; after, above it. */
  predicate IsStretch(entries: seq<Entry>, start: int, end: Option<int>, i: nat, j: nat) {
    && i <= j <= |entries|
    && (forall k :: 0 <= k < i ==> entries[k].id < start)
    && (forall k :: i <= k < j ==> InBounds(entries[k].id, start, end))
    && (forall k :: j <= k < |entries| ==> entries[k].id >= start && end.Some? && entries[k].id > end.value)
  }

  lemma StretchGrows(entries: seq<Entry>, start: int, end: Option<int>, i: nat, j: nat) returns (i': nat, j': nat)
    requires Ascending(entries) && entries != [] && IsStretch(entries[..|entries| - 1], start, end, i, j)
    ensures IsStretch(entries, start, end, i', j')
    ensures entries[i'..j'] == entries[i..j] + if InBounds(entries[|entries| - 1].id, start, end) then [entries[|entries| - 1]] else []
  {
    var n := |entries| - 1;
    assert forall k :: 0 <= k < n ==> entries[k] == entries[..n][k] && entries[k].id < entries[n].id;
    assert i < n ==> entries[..n][i].id >= start;
    assert j < n ==> entries[..n][j].id >= start;
    i', j' := i, j;
    if entries[n].id < start {
      assert i == j == n;
      i', j' := n + 1, n + 1;
    } else if InBounds(entries[n].id, start, end) {
      assert j == n;
      j' := n + 1;
    }
  }

  /** A range read returns one stretch of the stream. */
  lemma {:induction false} RangeIsStretch(entries: seq<Entry>, start: int, end: Option<int>) returns (i: nat, j: nat)
    requires Ascending(entries)
    ensures IsStretch(entries, start, end, i, j) && InRange(entries, start, end) == entries[i..j]
    decreases |entries|
  {
    if entries == [] {
      i, j := 0, 0;
    } else {
      var init := entries[..|entries| - 1];
      var a, b := RangeIsStretch(init, start, end);
      assert entries[a..b] == init[a..b];
      i, j := StretchGrows(entries, start, end, a, b);
    }
  }

  /** With the default bounds it returns the whole stream. */
  lemma {:induction false} FullRangeIsStream(entries: seq<Entry>)
    ensures InRange(entries, 0, None) == entries
  {
    if entries != [] {
      FullRangeIsStream(entries[..|entries| - 1]);
      assert entries[..|entries| - 1] + [entries[|entries| - 1]] == entries;
    }
  }

  lemma UpdateTwice<K, V>(m: map<K, V>, k: K, v: V, w: V)
    ensures m[k := v][k := w] == m[k := w]
  {
  }

  // ----------------------------------------------------- the broker object

  class MemoryBackend {
    var streams: map<string, seq<Entry>>
    var keys: map<string, map<string, nat>>
    var cursors: map<(string, string), nat>
    var pending: map<(string, string), map<nat, Event>>
    var dlq: map<string, seq<Parked>>
    var seqNo: nat

    function Snapshot(): State
      reads this
    {
      State(streams, keys, cursors, pending, dlq, seqNo)
    }

    constructor ()
      ensures Snapshot() == Empty
    {
      streams, keys, cursors, pending, dlq, seqNo := map[], map[], map[], map[], map[], 0;
    }

    method Reset()
      modifies this
      ensures Snapshot() == Empty
    {
      streams, keys, cursors, pending, dlq, seqNo := map[], map[], map[], map[], map[], 0;
    }

    method PublishEvent(s: string, e: Event) returns (id: nat)
      modifies this
      ensures Snapshot() == Publish(old(Snapshot()), s, e)
      ensures id == PublishId(old(Snapshot()), s, e)
      ensures old(Inv(Snapshot())) ==> Inv(Snapshot())
    {
      if old(Inv(Snapshot())) { PublishKeepsInv(Snapshot(), s, e); }
      var known: map<string, nat> := if s in keys then keys[s] else map[];
      if e.key in known {
        return known[e.key];
      }
      seqNo := seqNo + 1;
      id := seqNo;
      streams := streams[s := (if s in streams then streams[s] else []) + [Entry(id, e)]];
      keys := keys[s := known[e.key := id]];
    }

    method Ensure(s: string, g: string)
      modifies this`streams, this`cursors, this`pending
      ensures Snapshot() == EnsureGroup(old(Snapshot()), s, g)
    {
      if s !in streams { streams := streams[s := []]; }
      if (s, g) !in cursors { cursors := cursors[(s, g) := 0]; }
      if (s, g) !in pending { pending := pending[(s, g) := map[]]; }
      assert streams == old(streams)[s := Entries(old(Snapshot()), s)];
      assert cursors == old(cursors)[(s, g) := Cursor(old(Snapshot()), s, g)];
      assert pending == old(pending)[(s, g) := PendingOf(old(Snapshot()), s, g)];
    }

    method Read(s: string, g: string, count: int) returns (batch: seq<Entry>)
      modifies this
      ensures batch == Batch(old(Snapshot()), s, g, count)
      ensures Snapshot() == ReadGroup(old(Snapshot()), s, g, count)
      ensures old(Inv(Snapshot())) ==> Inv(Snapshot())
    {
      if old(Inv(Snapshot())) { ReadKeepsInv(Snapshot(), s, g, count); }
      Ensure(s, g);
      ghost var ready := Snapshot();
      batch := SliceTo(Fresh(streams[s], cursors[(s, g)]), count);
      if batch != [] {
        cursors := cursors[(s, g) := batch[|batch| - 1].id];
        var added := pending[(s, g)];
        for i := 0 to |batch|
          invariant added == AddPending(ready.pending[(s, g)], batch[..i])
        {
          assert batch[..i + 1][..i] == batch[..i];
          added := added[batch[i].id := batch[i].event];
        }
        assert batch[..|batch|] == batch;
        pending := pending[(s, g) := added];
        UpdateTwice(old(cursors), (s, g), ready.cursors[(s, g)], cursors[(s, g)]);
        UpdateTwice(old(pending), (s, g), ready.pending[(s, g)], added);
      }
    }

    method ReadRange(s: string, start: int, end: Option<int>) returns (r: seq<Entry>)
      ensures r == InRange(Entries(Snapshot(), s), start, end)
    {
      var entries := if s in streams then streams[s] else [];
      r := [];
      for i := 0 to |entries|
        invariant r == InRange(entries[..i], start, end)
      {
        assert entries[..i + 1][..i] == entries[..i];
        if start <= entries[i].id && (end.None? || entries[i].id <= end.value) { r := r + [entries[i]]; }
      }
      assert entries[..|entries|] == entries;
    }

    method Ack(s: string, g: string, id: nat)
      modifies this`pending
      ensures Snapshot() == Acknowledge(old(Snapshot()), s, g, id)
      ensures old(Inv(Snapshot())) ==> Inv(Snapshot())
    {
      if old(Inv(Snapshot())) { AckKeepsInv(Snapshot(), s, g, id); }
      if (s, g) in pending {
        pending := pending[(s, g) := pending[(s, g)] - {id}];
      }
    }

    method Park(s: string, e: Event, reason: string) returns (id: nat)
      modifies this`dlq, this`seqNo
      ensures Snapshot() == ToDlq(old(Snapshot()), s, e, reason)
      ensures id == old(seqNo) + 1
      ensures old(Inv(Snapshot())) ==> Inv(Snapshot())
    {
      if old(Inv(Snapshot())) { ParkKeepsInv(Snapshot(), s, e, reason); }
      seqNo := seqNo + 1;
      id := seqNo;
      dlq := dlq[s := (if s in dlq then dlq[s] else []) + [Parked(id, e, reason)]];
    }
  }
}
