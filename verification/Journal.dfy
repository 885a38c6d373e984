/** The executor's journal (src/orchestration/safe_executor.py): every command that ran,
    what undoes it, and undoing in reverse.  `W` is whatever state the commands change;
    `effect` is what a command does to it. */
module Journal {
  import opened Common

  datatype Entry = Entry(seqNo: nat, command: string, compensation: string, success: bool, timedOut: bool, compensated: bool)

  /** The journal, the world, and the entries undone so far, in the order they were. */
  datatype State<W> = State(entries: seq<Entry>, world: W, undone: seq<nat>)

  predicate Undoable(e: Entry) { e.compensation != "" && (e.success || e.timedOut) }

  /** Work that happened and has not been undone. */
  predicate Live(e: Entry) { Undoable(e) && !e.compensated }

  // -- operations ------------------------------------------------------------

  function Marked(entries: seq<Entry>, i: nat): seq<Entry>
    requires i < |entries|
  {
    entries[i := entries[i].(compensated := true)]
  }

  function UndoOne<W>(effect: (string, W) -> W, s: State<W>, i: nat): State<W>
    requires i < |s.entries|
  {
    State(Marked(s.entries, i), effect(s.entries[i].compensation, s.world), s.undone + [i])
  }

  /** `compensate(since)`, from entry `n - 1` backwards. */
  function Undo<W>(effect: (string, W) -> W, s: State<W>, since: int, n: nat): State<W>
    requires n <= |s.entries|
    decreases n
  {
    if n == 0 then s
    else if n - 1 >= since && Live(s.entries[n - 1]) then Undo(effect, UndoOne(effect, s, n - 1), since, n - 1)
    else Undo(effect, s, since, n - 1)
  }

  function Compensated<W>(effect: (string, W) -> W, s: State<W>, since: int): State<W> {
    Undo(effect, s, since, |s.entries|)
  }

  /** A command that ran, with its outcome and the world it left. */
  function Ran<W>(s: State<W>, command: string, compensation: string, success: bool, timedOut: bool, world: W): State<W> {
    s.(entries := s.entries + [Entry(|s.entries|, command, compensation, success, timedOut, false)], world := world)
  }

  datatype Op<W> =
    | Execute(command: string, success: bool, timedOut: bool, world: W)
    | Compensate(since: int)

  /** A command that times out is followed by `compensate()` over the whole journal. */
  function Apply<W>(effect: (string, W) -> W, compensationFor: string -> string, s: State<W>, op: Op<W>): State<W> {
    match op
    case Execute(command, success, timedOut, world) =>
      var s' := Ran(s, command, compensationFor(command), success, timedOut, world);
      if timedOut then Compensated(effect, s', 0) else s'
    case Compensate(since) => Compensated(effect, s, since)
  }

  function After<W>(effect: (string, W) -> W, compensationFor: string -> string, s: State<W>, ops: seq<Op<W>>): State<W> {
    if ops == [] then s
    else Apply(effect, compensationFor, After(effect, compensationFor, s, ops[..|ops| - 1]), ops[|ops| - 1])
  }

  // -- the world that the live entries describe ----------------------------------

  function Replay<W>(effect: (string, W) -> W, base: W, entries: seq<Entry>): W {
    if entries == [] then base
    else
      var last, before := entries[|entries| - 1], Replay(effect, base, entries[..|entries| - 1]);
      if Live(last) then effect(last.command, before) else before
  }

  /** A compensation undoes its command, wherever it is run. */
  ghost predicate Inverts<W(!new)>(effect: (string, W) -> W, command: string, compensation: string) {
    forall w: W {:trigger effect(command, w)} :: effect(compensation, effect(command, w)) == w
  }

  /** The command did what `effect` says if it can be undone, and nothing otherwise. */
  predicate Honest<W(==)>(effect: (string, W) -> W, compensationFor: string -> string, s: State<W>, op: Op<W>) {
    op.Execute? ==>
      op.world == if compensationFor(op.command) != "" && (op.success || op.timedOut) then effect(op.command, s.world) else s.world
  }

  predicate Dead(entries: seq<Entry>, from: int, to: int) {
    forall i :: from <= i < to && 0 <= i < |entries| ==> !Live(entries[i])
  }

  lemma {:induction false} ReplayDead<W>(effect: (string, W) -> W, base: W, entries: seq<Entry>, n: nat)
    requires n <= |entries| && Dead(entries, n, |entries|)
    ensures Replay(effect, base, entries) == Replay(effect, base, entries[..n])
    decreases |entries|
  {
    if n < |entries| {
      var init := entries[..|entries| - 1];
      ReplayDead(effect, base, init, n);
      assert init[..n] == entries[..n];
    } else {
      assert entries[..n] == entries;
    }
  }

  ghost predicate AllInvert<W(!new)>(effect: (string, W) -> W, entries: seq<Entry>) {
    forall e <- entries :: Undoable(e) ==> Inverts(effect, e.command, e.compensation)
  }

  /** Undoing the last live entry gives the world without it. */
  lemma UndoOneReplays<W(!new)>(effect: (string, W) -> W, base: W, s: State<W>, i: nat)
    requires i < |s.entries| && Live(s.entries[i]) && Dead(s.entries, i + 1, |s.entries|)
    requires AllInvert(effect, s.entries) && s.world == Replay(effect, base, s.entries)
    ensures UndoOne(effect, s, i).world == Replay(effect, base, UndoOne(effect, s, i).entries)
    ensures AllInvert(effect, UndoOne(effect, s, i).entries) && Dead(UndoOne(effect, s, i).entries, i, |s.entries|)
  {
    var e, s' := s.entries[i], UndoOne(effect, s, i);
    var before := Replay(effect, base, s.entries[..i]);
    ReplayDead(effect, base, s.entries, i + 1);
    assert s.entries[..i + 1][..i] == s.entries[..i];
    assert s.world == effect(e.command, before);
    assert e in s.entries;
    ReplayDead(effect, base, s'.entries, i);
    assert s'.entries[..i] == s.entries[..i];
    forall x | x in s'.entries && Undoable(x) ensures Inverts(effect, x.command, x.compensation) {
      var j :| 0 <= j < |s'.entries| && s'.entries[j] == x;
      assert s.entries[j] in s.entries;
    }
  }

  /** Compensating keeps the world in step with the journal, and leaves nothing live
      from `since` on. */
  lemma {:induction false} UndoReplays<W(!new)>(effect: (string, W) -> W, base: W, s: State<W>, since: int, n: nat)
    requires n <= |s.entries| && (n >= since ==> Dead(s.entries, n, |s.entries|))
    requires n < since ==> Dead(s.entries, since, |s.entries|)
    requires AllInvert(effect, s.entries) && s.world == Replay(effect, base, s.entries)
    ensures var s' := Undo(effect, s, since, n);
            && |s'.entries| == |s.entries|
            && s'.world == Replay(effect, base, s'.entries) && AllInvert(effect, s'.entries)
            && Dead(s'.entries, since, |s'.entries|)
    decreases n
  {
    if n > 0 {
      if n - 1 >= since && Live(s.entries[n - 1]) {
        UndoOneReplays(effect, base, s, n - 1);
        UndoReplays(effect, base, UndoOne(effect, s, n - 1), since, n - 1);
      } else {
        UndoReplays(effect, base, s, since, n - 1);
      }
    }
  }

  /** Compensating does not touch the journal below `since`. */
  lemma {:induction false} UndoKeepsEarlier<W>(effect: (string, W) -> W, s: State<W>, since: int, n: nat)
    requires n <= |s.entries|
    ensures |Undo(effect, s, since, n).entries| == |s.entries|
    ensures forall i :: 0 <= i < since && i < |s.entries| ==> Undo(effect, s, since, n).entries[i] == s.entries[i]
    decreases n
  {
    if n > 0 {
      if n - 1 >= since && Live(s.entries[n - 1]) {
        UndoKeepsEarlier(effect, UndoOne(effect, s, n - 1), since, n - 1);
      } else {
        UndoKeepsEarlier(effect, s, since, n - 1);
      }
    }
  }

  function Clamp(since: int, length: nat): (r: nat)
    ensures r <= length
  {
    if since < 0 then 0 else if since <= length then since else length
  }

  /** After `compensate(since)` the world is what the journal below `since` describes,
      and that part of the journal is as it was. */
  lemma CompensateRestores<W(!new)>(effect: (string, W) -> W, base: W, s: State<W>, since: int)
    requires AllInvert(effect, s.entries) && s.world == Replay(effect, base, s.entries)
    ensures var s', k := Compensated(effect, s, since), Clamp(since, |s.entries|);
            && s'.world == Replay(effect, base, s.entries[..k])
            && |s'.entries| == |s.entries| && s'.entries[..k] == s.entries[..k]
  {
    UndoReplays(effect, base, s, since, |s.entries|);
    UndoKeepsEarlier(effect, s, since, |s.entries|);
    var s', k := Compensated(effect, s, since), Clamp(since, |s.entries|);
    ReplayDead(effect, base, s'.entries, k);
    assert s'.entries[..k] == s.entries[..k];
  }

  // -- runs --------------------------------------------------------------------

  /** Every compensation the executor knows undoes its command. */
  ghost predicate Sound<W(!new)>(effect: (string, W) -> W, compensationFor: string -> string) {
    forall command :: compensationFor(command) != "" ==> Inverts(effect, command, compensationFor(command))
  }

  ghost predicate InStep<W(!new)>(effect: (string, W) -> W, base: W, s: State<W>) {
    AllInvert(effect, s.entries) && s.world == Replay(effect, base, s.entries)
  }

  predicate HonestRun<W(==)>(effect: (string, W) -> W, compensationFor: string -> string, s: State<W>, ops: seq<Op<W>>) {
    ops == [] ||
    (var init := ops[..|ops| - 1];
     HonestRun(effect, compensationFor, s, init) &&
     Honest(effect, compensationFor, After(effect, compensationFor, s, init), ops[|ops| - 1]))
  }

  lemma RanInStep<W(!new)>(effect: (string, W) -> W, compensationFor: string -> string, base: W, s: State<W>, op: Op<W>)
    requires op.Execute? && Sound(effect, compensationFor) && InStep(effect, base, s) && Honest(effect, compensationFor, s, op)
    ensures InStep(effect, base, Ran(s, op.command, compensationFor(op.command), op.success, op.timedOut, op.world))
  {
    var s' := Ran(s, op.command, compensationFor(op.command), op.success, op.timedOut, op.world);
    assert s'.entries[..|s.entries|] == s.entries;
  }

  lemma StepInStep<W(!new)>(effect: (string, W) -> W, compensationFor: string -> string, base: W, s: State<W>, op: Op<W>)
    requires Sound(effect, compensationFor) && InStep(effect, base, s) && Honest(effect, compensationFor, s, op)
    ensures InStep(effect, base, Apply(effect, compensationFor, s, op))
  {
    match op
    case Execute(command, success, timedOut, world) =>
      RanInStep(effect, compensationFor, base, s, op);
      if timedOut {
        var s' := Ran(s, command, compensationFor(command), success, timedOut, world);
        UndoReplays(effect, base, s', 0, |s'.entries|);
      }
    case Compensate(since) => UndoReplays(effect, base, s, since, |s.entries|);
  }

  /** In every run the world is the one the live journal entries describe. */
  lemma {:induction false} RunInStep<W(!new)>(effect: (string, W) -> W, compensationFor: string -> string, base: W, s: State<W>, ops: seq<Op<W>>)
    requires Sound(effect, compensationFor) && InStep(effect, base, s) && HonestRun(effect, compensationFor, s, ops)
    ensures InStep(effect, base, After(effect, compensationFor, s, ops))
  {
    if ops != [] {
      RunInStep(effect, compensationFor, base, s, ops[..|ops| - 1]);
      StepInStep(effect, compensationFor, base, After(effect, compensationFor, s, ops[..|ops| - 1]), ops[|ops| - 1]);
    }
  }

  /** Whatever a run did, compensating from where it began restores the world it began
      in - as long as no earlier entry was undone meanwhile. */
  lemma CompensateRestoresStart<W(!new)>(effect: (string, W) -> W, compensationFor: string -> string, base: W, s: State<W>, ops: seq<Op<W>>)
    requires Sound(effect, compensationFor) && InStep(effect, base, s) && HonestRun(effect, compensationFor, s, ops)
    requires s.entries <= After(effect, compensationFor, s, ops).entries
    ensures Compensated(effect, After(effect, compensationFor, s, ops), |s.entries|).world == s.world
  {
    RunInStep(effect, compensationFor, base, s, ops);
    var end := After(effect, compensationFor, s, ops);
    CompensateRestores(effect, base, end, |s.entries|);
    assert end.entries[..|s.entries|] == s.entries;
  }

  predicate LeavesEarlier<W>(op: Op<W>, k: nat) {
    match op
    case Execute(_, _, timedOut, _) => !timedOut
    case Compensate(since) => since >= k
  }

  /** No earlier entry is undone when nothing times out and nobody asks for it. */
  lemma {:induction false} EarlierStays<W>(effect: (string, W) -> W, compensationFor: string -> string, s: State<W>, ops: seq<Op<W>>)
    requires forall op <- ops :: LeavesEarlier(op, |s.entries|)
    ensures s.entries <= After(effect, compensationFor, s, ops).entries
  {
    if ops != [] {
      var init, mid := ops[..|ops| - 1], After(effect, compensationFor, s, ops[..|ops| - 1]);
      EarlierStays(effect, compensationFor, s, init);
      var op := ops[|ops| - 1];
      assert LeavesEarlier(op, |s.entries|);
      if op.Compensate? { UndoKeepsEarlier(effect, mid, op.since, |mid.entries|); }
    }
  }

  /** A command that times out undoes every journaled command, also those of earlier
      runs: the world is back where the journal began. */
  lemma TimeoutUndoesEverything<W(!new)>(effect: (string, W) -> W, compensationFor: string -> string, base: W, s: State<W>, op: Op<W>)
    requires op.Execute? && op.timedOut
    requires Sound(effect, compensationFor) && InStep(effect, base, s) && Honest(effect, compensationFor, s, op)
    ensures Apply(effect, compensationFor, s, op).world == base
  {
    RanInStep(effect, compensationFor, base, s, op);
    var s' := Ran(s, op.command, compensationFor(op.command), op.success, op.timedOut, op.world);
    CompensateRestores(effect, base, s', 0);
    assert s'.entries[..0] == [];
  }

  ghost predicate TimedOut<W>(ops: seq<Op<W>>) { exists op <- ops :: op.Execute? && op.timedOut }

  /** Once a command of the run has timed out, no earlier entry is live. */
  lemma {:induction false} TimeoutKillsEarlier<W(!new)>(effect: (string, W) -> W, compensationFor: string -> string, base: W, s: State<W>, ops: seq<Op<W>>)
    requires Sound(effect, compensationFor) && InStep(effect, base, s) && HonestRun(effect, compensationFor, s, ops)
    requires (forall op <- ops :: op.Execute?) && TimedOut(ops)
    ensures var end := After(effect, compensationFor, s, ops);
            |s.entries| <= |end.entries| && Dead(end.entries, 0, |s.entries|)
  {
    var init, op := ops[..|ops| - 1], ops[|ops| - 1];
    var mid := After(effect, compensationFor, s, init);
    assert op in ops;
    RunInStep(effect, compensationFor, base, s, init);
    var ran := Ran(mid, op.command, compensationFor(op.command), op.success, op.timedOut, op.world);
    LengthsGrow(effect, compensationFor, s, init);
    if op.timedOut {
      RanInStep(effect, compensationFor, base, mid, op);
      UndoReplays(effect, base, ran, 0, |ran.entries|);
    } else {
      assert TimedOut(init);
      TimeoutKillsEarlier(effect, compensationFor, base, s, init);
      assert forall i :: 0 <= i < |s.entries| ==> ran.entries[i] == mid.entries[i];
    }
  }

  lemma {:induction false} LengthsGrow<W>(effect: (string, W) -> W, compensationFor: string -> string, s: State<W>, ops: seq<Op<W>>)
    ensures |s.entries| <= |After(effect, compensationFor, s, ops).entries|
  {
    if ops != [] {
      var mid, op := After(effect, compensationFor, s, ops[..|ops| - 1]), ops[|ops| - 1];
      LengthsGrow(effect, compensationFor, s, ops[..|ops| - 1]);
      match op
      case Execute(command, success, timedOut, world) =>
        var ran := Ran(mid, command, compensationFor(command), success, timedOut, world);
        UndoKeepsEarlier(effect, ran, 0, |ran.entries|);
      case Compensate(since) => UndoKeepsEarlier(effect, mid, since, |mid.entries|);
    }
  }

  /** Where compensating a run of commands leaves the world: where the run began if
      none timed out, and where the journal began otherwise. */
  lemma UndoneRunEndsAt<W(!new)>(effect: (string, W) -> W, compensationFor: string -> string, base: W, s: State<W>, ops: seq<Op<W>>)
    requires Sound(effect, compensationFor) && InStep(effect, base, s) && HonestRun(effect, compensationFor, s, ops)
    requires forall op <- ops :: op.Execute?
    ensures Compensated(effect, After(effect, compensationFor, s, ops), |s.entries|).world == if TimedOut(ops) then base else s.world
  {
    if TimedOut(ops) {
      var end, k := After(effect, compensationFor, s, ops), |s.entries|;
      TimeoutKillsEarlier(effect, compensationFor, base, s, ops);
      RunInStep(effect, compensationFor, base, s, ops);
      CompensateRestores(effect, base, end, k);
      ReplayDead(effect, base, end.entries[..k], 0);
    } else {
      EarlierStays(effect, compensationFor, s, ops);
      CompensateRestoresStart(effect, compensationFor, base, s, ops);
    }
  }

  // -- each entry at most once, newest first ---------------------------------------

  /** The live entries from `since` on, below `n`, newest first. */
  function NewestFirst(entries: seq<Entry>, since: int, n: nat): seq<nat>
    requires n <= |entries|
  {
    if n == 0 then []
    else (if n - 1 >= since && Live(entries[n - 1]) then [n - 1] else []) + NewestFirst(entries, since, n - 1)
  }

  predicate Descending(xs: seq<nat>) { forall i, j :: 0 <= i < j < |xs| ==> xs[i] > xs[j] }

  lemma {:induction false} NewestFirstOrder(entries: seq<Entry>, since: int, n: nat)
    requires n <= |entries|
    ensures Descending(NewestFirst(entries, since, n))
    ensures forall i: nat :: i in NewestFirst(entries, since, n) <==> i < n && i >= since && Live(entries[i])
  {
    if n > 0 {
      NewestFirstOrder(entries, since, n - 1);
      var rest := NewestFirst(entries, since, n - 1);
      assert forall j :: 0 <= j < |rest| ==> rest[j] in rest;
    }
  }

  lemma {:induction false} NewestFirstMarked(entries: seq<Entry>, since: int, n: nat, k: nat)
    requires n <= k < |entries|
    ensures NewestFirst(Marked(entries, k), since, n) == NewestFirst(entries, since, n)
  {
    if n > 0 { NewestFirstMarked(entries, since, n - 1, k); }
  }

  /** What one call undoes: exactly the live entries from `since` on, in strictly
      descending order, each once. */
  lemma {:induction false} UndoOrder<W>(effect: (string, W) -> W, s: State<W>, since: int, n: nat)
    requires n <= |s.entries|
    ensures Undo(effect, s, since, n).undone == s.undone + NewestFirst(s.entries, since, n)
    decreases n
  {
    if n > 0 {
      if n - 1 >= since && Live(s.entries[n - 1]) {
        UndoOrder(effect, UndoOne(effect, s, n - 1), since, n - 1);
        NewestFirstMarked(s.entries, since, n - 1, n - 1);
      } else {
        UndoOrder(effect, s, since, n - 1);
      }
    }
  }

  /** The entries undone are the ones marked, each undone once and rightly so. */
  ghost predicate OnceEach<W>(s: State<W>) {
    && NoRepeats(s.undone)
    && (forall i: nat :: i in s.undone <==> i < |s.entries| && s.entries[i].compensated)
    && (forall i :: 0 <= i < |s.entries| ==>
          s.entries[i].seqNo == i && (s.entries[i].compensated ==> Undoable(s.entries[i])))
  }

  lemma {:induction false} UndoOnce<W>(effect: (string, W) -> W, s: State<W>, since: int, n: nat)
    requires n <= |s.entries| && OnceEach(s)
    ensures OnceEach(Undo(effect, s, since, n))
    decreases n
  {
    if n > 0 {
      if n - 1 >= since && Live(s.entries[n - 1]) {
        UndoOnce(effect, UndoOne(effect, s, n - 1), since, n - 1);
      } else {
        UndoOnce(effect, s, since, n - 1);
      }
    }
  }

  /** Over every run, whatever the commands do, no entry is undone twice, and only
      entries that succeeded or timed out are. */
  lemma {:induction false} AtMostOnce<W>(effect: (string, W) -> W, compensationFor: string -> string, s: State<W>, ops: seq<Op<W>>)
    requires OnceEach(s)
    ensures OnceEach(After(effect, compensationFor, s, ops))
  {
    if ops != [] {
      var mid, op := After(effect, compensationFor, s, ops[..|ops| - 1]), ops[|ops| - 1];
      AtMostOnce(effect, compensationFor, s, ops[..|ops| - 1]);
      match op
      case Execute(command, success, timedOut, world) =>
        var s' := Ran(mid, command, compensationFor(command), success, timedOut, world);
        assert OnceEach(s');
        UndoOnce(effect, s', 0, |s'.entries|);
      case Compensate(since) => UndoOnce(effect, mid, since, |mid.entries|);
    }
  }

  // -- the executor ----------------------------------------------------------------

  /** The entries `compensate` collects, oldest first. */
  ghost predicate Collects(entries: seq<Entry>, since: int, pending: seq<nat>, n: nat)
    requires n <= |entries|
  {
    && (forall i, j :: 0 <= i < j < |pending| ==> pending[i] < pending[j])
    && (forall i: nat :: i in pending <==> i < n && i >= since && Live(entries[i]))
  }

  lemma {:induction false} UndoSkips<W>(effect: (string, W) -> W, s: State<W>, since: int, m: nat, n: nat)
    requires m <= n <= |s.entries| && forall i :: m <= i < n && i >= since ==> !Live(s.entries[i])
    ensures Undo(effect, s, since, n) == Undo(effect, s, since, m)
    decreases n
  {
    if m < n { UndoSkips(effect, s, since, m, n - 1); }
  }

  class SafeExecutor<W> {
    const compensationFor: string -> string
    ghost const effect: (string, W) -> W
    var journal: seq<Entry>
    ghost var world: W
    ghost var undone: seq<nat>

    ghost function Value(): State<W>
      reads this
    {
      State(journal, world, undone)
    }

    constructor (compensationFor: string -> string, ghost effect: (string, W) -> W, ghost world: W)
      ensures this.compensationFor == compensationFor && this.effect == effect && Value() == State([], world, [])
    {
      this.compensationFor, this.effect, journal, this.world, undone := compensationFor, effect, [], world, [];
    }

    /** The first half of `compensate`: what there is to undo. */
    method Pending(since: int) returns (pending: seq<nat>)
      ensures Collects(journal, since, pending, |journal|)
    {
      pending := [];
      var i := 0;
      while i < |journal|
        invariant 0 <= i <= |journal| && Collects(journal, since, pending, i)
      {
        assert forall j :: 0 <= j < |pending| ==> pending[j] in pending;
        if i >= since && Live(journal[i]) { pending := pending + [i]; }
        i := i + 1;
      }
    }

    method Compensate(since: int)
      modifies this
      ensures Value() == Compensated(effect, old(Value()), since)
    {
      ghost var before := Value();
      var pending := Pending(since);
      var k := |pending|;
      ghost var n: nat := |journal|;
      assert forall j :: 0 <= j < |pending| ==> pending[j] in pending;
      while k > 0
        invariant 0 <= k <= |pending| && n <= |journal| == |before.entries|
        invariant Undo(effect, Value(), since, n) == Compensated(effect, before, since)
        invariant Collects(before.entries, since, pending, |before.entries|)
        invariant forall i :: 0 <= i < n ==> journal[i] == before.entries[i]
        invariant forall j :: 0 <= j < k ==> pending[j] < n
        invariant forall j :: k <= j < |pending| ==> pending[j] >= n
      {
        k := k - 1;
        var i := pending[k];
        assert i in pending;
        NextPending(before.entries, since, pending, k, n);
        UndoSkips(effect, Value(), since, i + 1, n);
        world := effect(journal[i].compensation, world);
        journal := journal[i := journal[i].(compensated := true)];
        undone := undone + [i];
        n := i;
      }
      NoneLeft(before.entries, since, pending, n);
      UndoSkips(effect, Value(), since, 0, n);
    }

    /** A command that passed the guard: journal it, run it, close the entry, and undo
        the journal if it was killed.  The outcome and the new world come from outside. */
    method Run(command: string, success: bool, timedOut: bool, ghost after: W)
      modifies this
      ensures Value() == Apply(effect, compensationFor, old(Value()), Execute(command, success, timedOut, after))
    {
      var entry := Entry(|journal|, command, compensationFor(command), false, false, false);
      journal := journal + [entry];
      world := after;
      journal := journal[|journal| - 1 := entry.(success := success, timedOut := timedOut)];
      assert journal == old(journal) + [Entry(|old(journal)|, command, compensationFor(command), success, timedOut, false)];
      if timedOut { Compensate(0); }
    }
  }

  /** Between one pending entry and the next there is nothing to undo. */
  lemma NextPending(entries: seq<Entry>, since: int, pending: seq<nat>, k: nat, n: nat)
    requires Collects(entries, since, pending, |entries|) && k < |pending| && n <= |entries|
    requires pending[k] < n && forall j :: k < j < |pending| ==> pending[j] >= n
    ensures forall i :: pending[k] < i < n && i >= since ==> !Live(entries[i])
    ensures Live(entries[pending[k]]) && pending[k] >= since
  {
    assert pending[k] in pending;
    forall i: nat | pending[k] < i < n && i >= since ensures !Live(entries[i]) {
      forall j | 0 <= j < |pending| ensures pending[j] != i { }
    }
  }

  lemma NoneLeft(entries: seq<Entry>, since: int, pending: seq<nat>, n: nat)
    requires Collects(entries, since, pending, |entries|) && n <= |entries|
    requires forall j :: 0 <= j < |pending| ==> pending[j] >= n
    ensures forall i :: 0 <= i < n && i >= since ==> !Live(entries[i])
  {
    forall i: nat | i < n && i >= since ensures !Live(entries[i]) {
      assert i in pending ==> i >= n;
    }
  }
}
