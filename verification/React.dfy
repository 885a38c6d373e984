/** The run loop of src/orchestration/agent.py: plan, act, observe, evaluate, repair,
    over a guarded state machine.  Planner, selector, executor and evaluator may answer
    anything at all, and may fail. */
module React {
  import opened Journal

  datatype RunState = Idle | Planned | Guarded | Executing | Observing | Repairing | Compensating | Done | Failed

  /** The guarded transition table. */
  function Allowed(s: RunState): set<RunState> {
    match s
    case Idle => {Planned}
    case Planned => {Guarded, Failed}
    case Guarded => {Executing, Planned, Failed}
    case Executing => {Observing, Compensating, Failed}
    case Observing => {Executing, Repairing, Compensating, Done, Failed}
    case Repairing => {Guarded, Planned, Failed}
    case Compensating => {Failed, Done}
    case Done => {Idle}
    case Failed => {Idle}
  }

  predicate LegalAt(trail: seq<RunState>, i: nat)
    requires i < |trail|
  {
    if i == 0 then trail[i] == Idle else trail[i] in Allowed(trail[i - 1])
  }

  /** A path of the table that starts idle. */
  predicate LegalTrail(trail: seq<RunState>) {
    trail != [] && forall i :: 0 <= i < |trail| ==> LegalAt(trail, i)
  }

  function Count(s: RunState, trail: seq<RunState>): nat {
    if trail == [] then 0 else Count(s, trail[..|trail| - 1]) + (if trail[|trail| - 1] == s then 1 else 0)
  }

  lemma TrailGrows(trail: seq<RunState>, s: RunState)
    requires LegalTrail(trail) && s in Allowed(trail[|trail| - 1])
    ensures LegalTrail(trail + [s])
    ensures Count(Executing, trail + [s]) == Count(Executing, trail) + (if s == Executing then 1 else 0)
    ensures Count(Done, trail + [s]) == Count(Done, trail) + (if s == Done then 1 else 0)
  {
    var longer := trail + [s];
    assert longer[..|trail|] == trail;
    forall i | 0 <= i < |longer| ensures LegalAt(longer, i) {
      if i < |trail| { assert LegalAt(trail, i); }
    }
  }

  /** Nothing executes unguarded: behind every execution there is a guard, with only
      executions and observations in between. */
  lemma {:induction false} GuardComesFirst(trail: seq<RunState>, i: nat) returns (g: nat)
    requires LegalTrail(trail) && i < |trail| && (trail[i] == Executing || trail[i] == Observing)
    ensures g < i && trail[g] == Guarded && forall k :: g < k <= i ==> trail[k] == Executing || trail[k] == Observing
    decreases i
  {
    assert LegalAt(trail, i);
    if trail[i - 1] == Guarded { g := i - 1; } else { g := GuardComesFirst(trail, i - 1); }
  }

  /** A finished run was observing or compensating; after the end there is only a fresh
      start; and a repair leads back to the guard or the plan. */
  lemma EndsAreFinal(trail: seq<RunState>, i: nat)
    requires LegalTrail(trail) && 0 < i < |trail|
    ensures trail[i] == Done ==> trail[i - 1] == Observing || trail[i - 1] == Compensating
    ensures trail[i - 1] == Done || trail[i - 1] == Failed ==> trail[i] == Idle
    ensures trail[i] == Idle ==> trail[i - 1] == Done || trail[i - 1] == Failed
    ensures trail[i - 1] == Repairing ==> trail[i] == Guarded || trail[i] == Planned || trail[i] == Failed
    ensures trail[i] == Guarded ==> trail[i - 1] == Planned || trail[i - 1] == Repairing
    ensures trail[i - 1] == Idle ==> trail[i] == Planned
  {
    assert LegalAt(trail, i);
  }

  lemma NotDone(trail: seq<RunState>)
    requires trail != [] && Count(Done, trail) == 0
    ensures trail[|trail| - 1] != Done
  {
  }

  class StateMachine {
    var current: RunState
    var trail: seq<RunState>

    predicate Valid()
      reads this
    {
      LegalTrail(trail) && current == trail[|trail| - 1]
    }

    constructor ()
      ensures Valid() && trail == [Idle]
      ensures Count(Executing, trail) == 0 && Count(Done, trail) == 0
    {
      current, trail := Idle, [Idle];
      assert [Idle][..0] == [];
    }

    predicate Can(next: RunState)
      reads this
    {
      next in Allowed(current)
    }

    /** `advance`; an illegal jump raises and leaves the machine where it was. */
    method Advance(next: RunState) returns (ok: bool)
      requires Valid()
      modifies this
      ensures ok == old(Can(next))
      ensures Valid() && trail == if ok then old(trail) + [next] else old(trail)
      ensures ok ==> Count(Executing, trail) == old(Count(Executing, trail)) + (if next == Executing then 1 else 0)
      ensures ok ==> Count(Done, trail) == old(Count(Done, trail)) + (if next == Done then 1 else 0)
    {
      ok := Can(next);
      if ok {
        TrailGrows(trail, next);
        current, trail := next, trail + [next];
      }
    }
  }

  // -- the scratchpad ----------------------------------------------------------

  datatype Step = Step(command: string, exitCode: string, prevHash: string, stepHash: string)

  const CHAIN_GENESIS := "GENESIS"

  /** `chain_step_hash`. */
  type StepHash = (string, string, string) -> string

  predicate LinkedAt(h: StepHash, pad: seq<Step>, i: nat)
    requires i < |pad|
  {
    && pad[i].prevHash == (if i == 0 then CHAIN_GENESIS else pad[i - 1].stepHash)
    && pad[i].stepHash == h(pad[i].prevHash, pad[i].command, pad[i].exitCode)
  }

  predicate Linked(h: StepHash, pad: seq<Step>) { forall i :: 0 <= i < |pad| ==> LinkedAt(h, pad, i) }

  function NewStep(h: StepHash, pad: seq<Step>, command: string, exitCode: string): Step {
    var prev := if pad == [] then CHAIN_GENESIS else pad[|pad| - 1].stepHash;
    Step(command, exitCode, prev, h(prev, command, exitCode))
  }

  lemma StepLinks(h: StepHash, pad: seq<Step>, command: string, exitCode: string)
    requires Linked(h, pad)
    ensures Linked(h, pad + [NewStep(h, pad, command, exitCode)])
  {
    var longer := pad + [NewStep(h, pad, command, exitCode)];
    forall i | 0 <= i < |longer| ensures LinkedAt(h, longer, i) {
      if i < |pad| { assert LinkedAt(h, pad, i); }
    }
  }

  // -- what ran -------------------------------------------------------------------

  function Commands(pad: seq<Step>): seq<string> { seq(|pad|, i requires 0 <= i < |pad| => pad[i].command) }

  ghost function OpCommands<W>(ops: seq<Op<W>>): seq<string> {
    seq(|ops|, i requires 0 <= i < |ops| => if ops[i].Execute? then ops[i].command else "")
  }

  /** `xs` is `ys` with some elements left out. */
  ghost predicate PartOf(xs: seq<string>, ys: seq<string>)
    decreases |ys|
  {
    || xs == []
    || (ys != [] && PartOf(xs, ys[..|ys| - 1]))
    || (ys != [] && xs[|xs| - 1] == ys[|ys| - 1] && PartOf(xs[..|xs| - 1], ys[..|ys| - 1]))
  }

  lemma PartOfLonger(xs: seq<string>, ys: seq<string>, y: string)
    requires PartOf(xs, ys)
    ensures PartOf(xs, ys + [y]) && PartOf(xs + [y], ys + [y])
  {
    assert (ys + [y])[..|ys|] == ys && (xs + [y])[..|xs|] == xs;
  }

  /** The first so many tasks of each plan, plan by plan. */
  ghost function Taken(plans: seq<seq<string>>, counts: seq<nat>): seq<string>
    requires |plans| == |counts| && forall i :: 0 <= i < |plans| ==> counts[i] <= |plans[i]|
  {
    if plans == [] then []
    else
      var n := |plans| - 1;
      Taken(plans[..n], counts[..n]) + plans[n][..counts[n]]
  }

  ghost predicate Counted(plans: seq<seq<string>>, counts: seq<nat>, begun: seq<string>) {
    && |plans| == |counts| && (forall i :: 0 <= i < |plans| ==> counts[i] <= |plans[i]|)
    && begun == Taken(plans, counts)
  }

  lemma OneMorePlan(plans: seq<seq<string>>, counts: seq<nat>, begun: seq<string>, tasks: seq<string>, k: nat)
    requires Counted(plans, counts, begun) && k <= |tasks|
    ensures Counted(plans + [tasks], counts + [k], begun + tasks[..k])
  {
    assert (plans + [tasks])[..|plans|] == plans && (counts + [k])[..|counts|] == counts;
  }

  // -- one task ------------------------------------------------------------------

  datatype Verdict = SaysDone | SaysAbort | SaysOther(text: string)  // retry, replan, anything else

  datatype Judged = Judgement(verdict: Verdict) | WaitsForUser | Raises | BadJump

  datatype Ending = Goes | Finished | Parked | Crashed | InvalidTransition

  /** `_repair_tasks`: no tasks when the planner cannot repair or fails. */
  datatype Repair = NoRepair | Tasks(tasks: seq<string>)

  class Agent<W(!new)> {
    const h: StepHash
    const maxIterations: int
    const executor: SafeExecutor<W>
    /** Does the executor keep a journal and know how to compensate? */
    const canUndo: bool
    var journalStart: nat
    var fsm: StateMachine
    var scratchpad: seq<Step>
    /** The verdicts of the current pass over the tasks. */
    ghost var verdicts: seq<Verdict>
    ghost var passes: nat
    /** The executor at the start of the run, and what it was asked to do since. */
    ghost var began: State<W>
    ghost var ops: seq<Op<W>>
    ghost var compensated: bool
    /** The tasks begun in this run, in order, the plans they come from, and the plans the
        planner gave when asked to repair. */
    ghost var begun: seq<string>
    ghost var plans: seq<seq<string>>
    ghost var counts: seq<nat>
    ghost var answers: seq<seq<string>>

    constructor (h: StepHash, maxIterations: int, executor: SafeExecutor<W>, canUndo: bool)
      ensures this.h == h && this.maxIterations == if maxIterations >= 1 then maxIterations else 1
      ensures this.executor == executor && this.canUndo == canUndo
    {
      this.h, this.executor, this.canUndo, journalStart := h, executor, canUndo, 0;
      fsm := new StateMachine();
      this.maxIterations := if maxIterations >= 1 then maxIterations else 1;
      scratchpad, verdicts, passes := [], [], 0;
      began, ops, compensated := executor.Value(), [], false;
      begun, plans, counts, answers := [], [], [], [];
    }

    ghost predicate Valid()
      reads this`fsm, this`scratchpad, fsm
    {
      fsm.Valid() && Linked(h, scratchpad)
    }

    /** Every execution is on the scratchpad. */
    ghost predicate Recorded()
      reads this`fsm, this`scratchpad, fsm
    {
      Count(Executing, fsm.trail) == |scratchpad| && Count(Done, fsm.trail) == 0
    }

    ghost function Worked(): State<W>
      reads this`began, this`ops
    {
      After(executor.effect, executor.compensationFor, began, ops)
    }

    /** The executor did what this run asked, and nothing was undone yet. */
    ghost predicate Logged()
      reads this`journalStart, this`began, this`ops, this`compensated, executor
    {
      && journalStart == |began.entries| && !compensated
      && executor.Value() == Worked() && forall op <- ops :: op.Execute?
    }

    /** Every task begun is on the scratchpad, and only such were executed. */
    ghost predicate Level()
      reads this`scratchpad, this`ops, this`begun
    {
      Commands(scratchpad) == begun && PartOf(OpCommands(ops), begun)
    }

    /** The same, but for the task begun last. */
    ghost predicate Told()
      reads this`scratchpad, this`ops, this`begun
    {
      && Commands(scratchpad) <= begun && |begun| <= |scratchpad| + 1
      && PartOf(OpCommands(ops), begun)
    }

    /** This task has begun, and is neither on the scratchpad nor executed. */
    ghost predicate Begun(command: string)
      reads this`scratchpad, this`ops, this`begun
    {
      begun == Commands(scratchpad) + [command] && PartOf(OpCommands(ops), Commands(scratchpad))
    }

    /** Or is executed already. */
    ghost predicate Tried(command: string)
      reads this`scratchpad, this`ops, this`begun
    {
      begun == Commands(scratchpad) + [command] && PartOf(OpCommands(ops), begun)
    }

    lemma BegunIsTried(command: string)
      requires Begun(command)
      ensures Tried(command) && Told()
    {
      PartOfLonger(OpCommands(ops), Commands(scratchpad), command);
    }

    /** The start of a pass, or between two of its tasks. */
    ghost predicate Ready()
      reads this, fsm
    {
      if verdicts == [] then fsm.current == Planned || fsm.current == Repairing else fsm.current == Observing
    }

    method AppendStep(command: string, exitCode: string)
      requires Valid()
      modifies this`scratchpad
      ensures Valid() && |scratchpad| == old(|scratchpad|) + 1
      ensures Commands(scratchpad) == old(Commands(scratchpad)) + [command]
    {
      StepLinks(h, scratchpad, command, exitCode);
      scratchpad := scratchpad + [NewStep(h, scratchpad, command, exitCode)];
    }

    /** The task begun last goes on the scratchpad, with its verdict. */
    method Record(command: string, exitCode: string, ghost verdict: Verdict)
      requires Valid() && Tried(command) && Count(Done, fsm.trail) == 0 && Count(Executing, fsm.trail) == |scratchpad| + 1
      modifies this`scratchpad, this`verdicts
      ensures Valid() && Recorded() && Level() && Told() && verdicts == old(verdicts) + [verdict]
    {
      AppendStep(command, exitCode);
      verdicts := verdicts + [verdict];
    }

    /** A step of the machine that neither executes nor finishes. */
    method Move(next: RunState) returns (ok: bool)
      requires Valid() && Recorded() && next in Allowed(fsm.current) && next != Executing && next != Done
      modifies fsm
      ensures Valid() && Recorded() && ok && fsm.current == next
    {
      ok := fsm.Advance(next);
    }

    /** A step the selector could not map: judged first, then recorded as run. */
    method RunUnknown(command: string) returns (r: Judged)
      requires Valid() && Recorded() && Tried(command) && (fsm.current == Guarded || fsm.current == Observing)
      modifies this`scratchpad, this`verdicts, fsm
      ensures Valid() && r != BadJump && r != WaitsForUser
      ensures r.Judgement? ==> Recorded() && fsm.current == Observing && verdicts == old(verdicts) + [r.verdict]
      ensures r.Raises? ==> Recorded() && verdicts == old(verdicts)
      ensures Told() && (r.Judgement? ==> Level())
    {
      var verdict: Verdict, raises: bool := *, *;  // the evaluator
      if raises { return Raises; }
      var ok := fsm.Advance(Executing);
      if !ok { return BadJump; }
      ok := fsm.Advance(Observing);
      if !ok { return BadJump; }
      Record(command, "1", verdict);
      r := Judgement(verdict);
    }

    /** A command that passed the guard, with any outcome. */
    method Execute(command: string)
      requires Valid() && Logged() && Begun(command)
      modifies this`ops, executor
      ensures Valid() && Logged() && Tried(command)
    {
      var success: bool, timedOut: bool := *, *;
      ghost var after := executor.world;
      after := *;
      ghost var op := Op.Execute(command, success, timedOut, after);
      executor.Run(command, success, timedOut, after);
      assert (ops + [op])[..|ops|] == ops;
      assert OpCommands(ops + [op]) == OpCommands(ops) + [command];
      PartOfLonger(OpCommands(ops), Commands(scratchpad), command);
      ops := ops + [op];
    }

    /** Execute, observe, evaluate. */
    method Act(command: string) returns (r: Judged)
      requires Valid() && Recorded() && Logged() && Begun(command) && (fsm.current == Guarded || fsm.current == Observing)
      modifies this`scratchpad, this`verdicts, this`ops, fsm, executor
      ensures Valid() && Logged() && r != BadJump && r != WaitsForUser
      ensures r.Judgement? ==> Recorded() && fsm.current == Observing && verdicts == old(verdicts) + [r.verdict]
      ensures r.Raises? ==> Count(Done, fsm.trail) == 0 && Count(Executing, fsm.trail) == |scratchpad| + 1 && verdicts == old(verdicts)
      ensures Told() && (r.Judgement? ==> Level())
    {
      var ok := fsm.Advance(Executing);
      if !ok { return BadJump; }
      var exitCode: string, runs: bool, raises: bool := *, *, *;  // the executor, which may refuse
      BegunIsTried(command);
      if runs { Execute(command); }
      if raises { return Raises; }
      r := Observe(command, exitCode);
    }

    method Observe(command: string, exitCode: string) returns (r: Judged)
      requires Valid() && Tried(command) && fsm.current == Executing && Count(Done, fsm.trail) == 0
      requires Count(Executing, fsm.trail) == |scratchpad| + 1
      modifies this`scratchpad, this`verdicts, fsm
      ensures Valid() && r != BadJump && r != WaitsForUser
      ensures r.Judgement? ==> Recorded() && fsm.current == Observing && verdicts == old(verdicts) + [r.verdict]
      ensures r.Raises? ==> Count(Done, fsm.trail) == 0 && Count(Executing, fsm.trail) == |scratchpad| + 1 && verdicts == old(verdicts)
      ensures Told() && (r.Judgement? ==> Level())
    {
      var ok := fsm.Advance(Observing);
      if !ok { return BadJump; }
      var verdict: Verdict, raises: bool := *, *;  // the evaluator
      if raises { return Raises; }
      Record(command, exitCode, verdict);
      r := Judgement(verdict);
    }

    method RunKnown(command: string) returns (r: Judged)
      requires Valid() && Recorded() && Logged() && Begun(command) && (fsm.current == Guarded || fsm.current == Observing)
      modifies this`scratchpad, this`verdicts, this`ops, fsm, executor
      ensures Valid() && Logged() && r != BadJump
      ensures r.Judgement? ==> Recorded() && fsm.current == Observing && verdicts == old(verdicts) + [r.verdict]
      ensures r.WaitsForUser? ==> Recorded() && verdicts == old(verdicts) &&
                                  fsm.current == if old(fsm.current) == Guarded then Planned else Observing
      ensures r.Raises? ==> Count(Done, fsm.trail) == 0 && |scratchpad| <= Count(Executing, fsm.trail) <= |scratchpad| + 1
      ensures r.Raises? ==> verdicts == old(verdicts)
      ensures Told() && (r.Judgement? ==> Level())
    {
      BegunIsTried(command);
      var needed: bool, raises: bool := *, *;  // is this a sensitive action?
      if raises { return Raises; }
      if needed {
        if fsm.Can(Planned) {
          var ok := Move(Planned);
          if !ok { return BadJump; }
        }
        return WaitsForUser;
      }
      r := Act(command);
    }

    ghost method BeginTask(command: string)
      requires Level()
      modifies this`begun
      ensures begun == old(begun) + [command] && Begun(command) && Tried(command) && Told()
    {
      begun := begun + [command];
      BegunIsTried(command);
    }

    method RunTask(command: string) returns (r: Judged)
      requires Valid() && Recorded() && Logged() && Ready() && Level()
      modifies this`scratchpad, this`verdicts, this`ops, this`begun, fsm, executor
      ensures Valid() && Logged() && r != BadJump
      ensures r.Judgement? ==> Recorded() && fsm.current == Observing && verdicts == old(verdicts) + [r.verdict]
      ensures r.WaitsForUser? ==> Recorded() && verdicts == old(verdicts) &&
                                  fsm.current == if verdicts == [] then Planned else Observing
      ensures r.Raises? ==> Count(Done, fsm.trail) == 0 && |scratchpad| <= Count(Executing, fsm.trail) <= |scratchpad| + 1
      ensures r.Raises? ==> verdicts == old(verdicts)
      ensures begun == old(begun) + [command] && Told() && (r.Judgement? ==> Level())
    {
      BeginTask(command);
      var known: bool, raises: bool := *, *;  // the selector
      if raises { return Raises; }
      if fsm.Can(Guarded) {
        var ok := Move(Guarded);
        if !ok { return BadJump; }
      }
      if known { r := RunKnown(command); } else { r := RunUnknown(command); }
    }

    /** One pass: the tasks in order, until one is not done. */
    method RunPass(tasks: seq<string>) returns (r: Judged)
      requires Valid() && Recorded() && Logged() && verdicts == [] && Ready() && Level()
      modifies this`scratchpad, this`verdicts, this`ops, this`begun, fsm, executor
      ensures Valid() && Logged() && r != BadJump
      ensures r.Raises? ==> Count(Done, fsm.trail) == 0 && |scratchpad| <= Count(Executing, fsm.trail) <= |scratchpad| + 1
      ensures r.WaitsForUser? ==> Recorded() && fsm.current == if verdicts == [] then Planned else Observing
      ensures r.Judgement? ==> Recorded() && (verdicts != [] ==> fsm.current == Observing)
      ensures SaysAbort in verdicts <==> r == Judgement(SaysAbort)
      ensures r == Judgement(SaysDone) ==> |verdicts| == |tasks| && AllDone(verdicts)
      ensures r == Judgement(SaysDone) && tasks == [] ==> fsm.current == old(fsm.current)
      ensures r.Judgement? && r.verdict != SaysDone ==> verdicts != [] && !AllDone(verdicts)
      ensures Told() && Covers(old(begun), begun, tasks)
      ensures r.Judgement? ==> Level() && |begun| == |old(begun)| + |verdicts|
    {
      var i := 0;
      while i < |tasks|
        invariant 0 <= i <= |tasks| && |verdicts| == i && AllDone(verdicts)
        invariant Valid() && Recorded() && Logged() && Ready() && Level()
        invariant UpTo(old(begun), begun, tasks, i)
        invariant i == 0 ==> fsm.current == old(fsm.current)
      {
        r := RunTask(tasks[i]);
        UpToNext(old(begun), begun, tasks, i);
        if !r.Judgement? { return; }
        if r.verdict != SaysDone {
          assert verdicts[i] in verdicts && verdicts[i] == r.verdict;
          return;
        }
        i := i + 1;
      }
      UpToCovers(old(begun), begun, tasks, i);
      r := Judgement(SaysDone);
    }

    /** What the run did, and what compensating made of it. */
    ghost predicate Settled()
      reads this`began, this`ops, this`compensated, executor
    {
      && (forall op <- ops :: op.Execute?)
      && executor.Value() == if compensated then Compensated(executor.effect, Worked(), |began.entries|) else Worked()
    }

    method UndoRun()
      requires Logged()
      modifies this`compensated, executor
      ensures compensated && Settled()
    {
      executor.Compensate(journalStart);
      compensated := true;
    }

    /** Undo the run's work if the executor can, and fail. */
    method Abort() returns (ok: bool)
      requires Valid() && Recorded() && Logged() && fsm.current == Observing
      modifies this`compensated, fsm, executor
      ensures Valid() && Recorded() && ok && fsm.current == Failed
      ensures compensated == canUndo && Settled()
    {
      if canUndo && fsm.Can(Compensating) {
        ok := Move(Compensating);
        if !ok { return; }
        UndoRun();
      }
      ok := Move(Failed);
    }

    /** After a pass that was judged: stop, or ask the planner for other tasks. */
    method Follow(verdict: Verdict) returns (ending: Ending, repaired: seq<string>)
      requires Valid() && Recorded() && Logged() && (verdict != SaysDone ==> fsm.current == Observing)
      requires fsm.current == Planned || fsm.current == Repairing || fsm.current == Observing
      modifies this`compensated, this`answers, fsm, executor
      ensures Valid() && (ending == Finished || ending == Goes)
      ensures Settled() && (compensated <==> canUndo && verdict == SaysAbort)
      ensures Count(Executing, fsm.trail) == |scratchpad|
      ensures ending == Finished ==>
                fsm.current == if verdict == SaysDone && old(fsm.current) == Observing then Done else Failed
      ensures ending == Goes ==> verdict != SaysDone && Recorded() && Logged() && fsm.current == Repairing
      ensures answers == if ending == Goes then old(answers) + [repaired] else old(answers)
    {
      var ok: bool;
      if verdict == SaysAbort {
        ok := Abort();
        return if ok then Finished else InvalidTransition, [];
      }
      var answer := NoRepair;
      if verdict != SaysDone {
        ok := Move(Repairing);
        if !ok { return InvalidTransition, []; }
        answer := *;  // the planner
      }
      if answer == NoRepair {
        ok := fsm.Advance(if fsm.Can(Done) then Done else Failed);
        return if ok then Finished else InvalidTransition, [];
      }
      answers := answers + [answer.tasks];
      return Goes, answer.tasks;
    }

    /** One iteration: a pass, and the repair, abort or end that follows from it. */
    method Iterate(tasks: seq<string>) returns (ending: Ending, repaired: seq<string>)
      requires Valid() && Recorded() && Logged() && verdicts == [] && Ready() && Level()
      modifies this`scratchpad, this`verdicts, this`ops, this`begun, this`compensated, this`answers, fsm, executor
      ensures Valid() && Ended(ending) && Undone()
      ensures ending == Goes ==> Recorded() && Logged() && fsm.current == Repairing && !AllDone(verdicts)
      ensures Told() && Covers(old(begun), begun, tasks)
      ensures if ending == Goes then Level() && answers == old(answers) + [repaired] else answers == old(answers)
    {
      repaired := [];
      var r := RunPass(tasks);
      if r.Judgement? {
        ending, repaired := Follow(r.verdict);
      } else {
        ending := Stopped(r);
      }
    }

    /** A pass that was not judged: parked for the user, or crashed. */
    method Stopped(r: Judged) returns (ending: Ending)
      requires Valid() && (r.Raises? || r.WaitsForUser?) && Count(Done, fsm.trail) == 0
      requires |scratchpad| <= Count(Executing, fsm.trail) <= |scratchpad| + (if r.Raises? then 1 else 0)
      requires r.WaitsForUser? ==> fsm.current == Planned || fsm.current == Observing
      ensures Ended(ending) && ending != Goes
    {
      NotDone(fsm.trail);
      ending := if r == BadJump then InvalidTransition else if r == Raises then Crashed else Parked;
    }

    /** The tasks begun are the first ones of each plan in turn; the first plan is the
        caller's, and each later one what the planner answered. */
    ghost predicate Followed(initial: seq<string>)
      reads this`passes, this`begun, this`plans, this`counts, this`answers
    {
      && |plans| == passes && Counted(plans, counts, begun)
      && plans <= [initial] + answers && |answers| <= passes
    }

    /** Between two passes, or before the first: what the next one is to do. */
    ghost predicate Next(tasks: seq<string>, initial: seq<string>)
      reads this`passes, this`begun, this`plans, this`counts, this`answers
    {
      |plans| == passes && Counted(plans, counts, begun) && Asked(plans, tasks, initial, answers)
    }

    /** How a run can end. */
    ghost predicate Ended(ending: Ending)
      reads this`fsm, this`scratchpad, this`verdicts, fsm
    {
      && ending != InvalidTransition
      && (ending == Finished ==> fsm.current == Done || fsm.current == Failed)
      && (ending == Parked ==> fsm.current == Planned || fsm.current == Observing)
      && (fsm.current == Done <==> ending == Finished && verdicts != [] && AllDone(verdicts))
      && (ending != Crashed ==> Count(Executing, fsm.trail) == |scratchpad|)
      && (ending == Crashed ==> |scratchpad| <= Count(Executing, fsm.trail) <= |scratchpad| + 1)
    }

    ghost predicate Undone()
      reads this`began, this`ops, this`compensated, this`verdicts, executor
    {
      Settled() && (compensated <==> canUndo && SaysAbort in verdicts)
    }

    /** One iteration, and the plan it took its tasks from. */
    method OnePass(tasks: seq<string>, ghost initial: seq<string>) returns (ending: Ending, repaired: seq<string>)
      requires Valid() && Recorded() && Logged() && Level() && (fsm.current == Planned || fsm.current == Repairing)
      requires Next(tasks, initial)
      modifies this`scratchpad, this`verdicts, this`passes, this`ops, this`begun, this`plans, this`counts, this`answers, this`compensated, fsm, executor
      ensures Valid() && Ended(ending) && Undone() && Told() && Followed(initial) && passes == old(passes) + 1
      ensures ending == Goes ==> Recorded() && Logged() && Level() && fsm.current == Repairing && !AllDone(verdicts)
      ensures ending == Goes ==> Next(repaired, initial)
    {
      ghost var before, asked := begun, answers;
      verdicts := [];
      ending, repaired := Iterate(tasks);
      Note(tasks, initial, before, asked, repaired);
    }

    /** The books of one pass. */
    ghost method Note(tasks: seq<string>, initial: seq<string>, before: seq<string>, asked: seq<seq<string>>, repaired: seq<string>)
      requires |plans| == passes && Counted(plans, counts, before) && Asked(plans, tasks, initial, asked)
      requires Covers(before, begun, tasks) && (answers == asked || answers == asked + [repaired])
      modifies this`passes, this`plans, this`counts
      ensures passes == old(passes) + 1 && Followed(initial)
      ensures answers == asked + [repaired] ==> Next(repaired, initial)
    {
      OneMorePlan(plans, counts, before, tasks, |begun| - |before|);
      AskedNext(plans, tasks, initial, asked, repaired);
      passes, plans, counts := passes + 1, plans + [tasks], counts + [|begun| - |before|];
    }

    /** The bounded loop over the passes. */
    method RunPasses(initial: seq<string>) returns (ending: Ending)
      requires maxIterations >= 1 && Valid() && Recorded() && Logged() && Level() && fsm.current == Planned
      requires passes == 0 && Next(initial, initial)
      modifies this`scratchpad, this`verdicts, this`passes, this`ops, this`begun, this`plans, this`counts, this`answers, this`compensated, fsm, executor
      ensures Valid() && Ended(ending) && ending != Goes && Undone() && 1 <= passes <= maxIterations
      ensures Told() && Followed(initial)
    {
      var tasks, i := initial, 0;
      while i < maxIterations
        invariant Valid() && Recorded() && Logged() && Level() && 0 <= i <= maxIterations && passes == i
        invariant fsm.current == if i == 0 then Planned else Repairing
        invariant Next(tasks, initial)
        invariant i > 0 ==> !AllDone(verdicts) && Undone() && Told() && Followed(initial)
      {
        ending, tasks := OnePass(tasks, initial);
        if ending != Goes { return; }
        i := i + 1;
      }
      ending := GiveUp();
    }

    /** No iteration left. */
    method GiveUp() returns (ending: Ending)
      requires Valid() && Recorded() && fsm.current == Repairing && !AllDone(verdicts)
      modifies fsm
      ensures Valid() && Ended(ending) && ending == Finished
    {
      var ok := fsm.Advance(Failed);
      ending := if ok then Finished else InvalidTransition;
    }

    /** A new run: nothing begun, and the machine planned. */
    method Start(ghost initial: seq<string>) returns (ok: bool)
      modifies this
      ensures fresh(fsm) && ok && Valid() && Recorded() && Logged() && Level() && fsm.current == Planned
      ensures began == executor.Value() && passes == 0 && Next(initial, initial)
    {
      var machine := new StateMachine();
      fsm := machine;
      OpenJournal(initial);
      ok := Move(Planned);
    }

    method OpenJournal(ghost initial: seq<string>)
      modifies this`scratchpad, this`verdicts, this`journalStart, this`began, this`ops, this`compensated,
               this`begun, this`answers, this`passes, this`plans, this`counts
      ensures scratchpad == [] && Logged() && Level()
      ensures began == executor.Value() && passes == 0 && Next(initial, initial)
    {
      scratchpad, verdicts := [], [];
      journalStart, began, ops, compensated := |executor.journal|, executor.Value(), [], false;
      OpenBooks(initial);
    }

    ghost method OpenBooks(initial: seq<string>)
      requires scratchpad == [] && ops == []
      modifies this`begun, this`answers, this`passes, this`plans, this`counts
      ensures Level() && passes == 0 && Next(initial, initial)
    {
      begun, answers, passes, plans, counts := [], [], 0, [], [];
      assert [] + [initial] == [initial] + [];
    }

    /** `_run_react_loop`.  `base` is the world in which the executor's journal began. */
    method RunLoop(initial: seq<string>, ghost base: W) returns (ending: Ending)
      requires maxIterations >= 1
      modifies this, executor
      ensures fresh(fsm) && Valid() && Ended(ending) && ending != Goes && 1 <= passes <= maxIterations
      ensures Told() && Followed(initial)
      ensures began == old(executor.Value()) && Undone()
      ensures compensated && Undoes(executor, base, began, ops) ==>
                executor.world == if TimedOut(ops) then base else old(executor.world)
    {
      var ok := Start(initial);
      if !ok { return InvalidTransition; }
      ending := RunPasses(initial);
      RunIsUndone(executor, base, began, ops);
    }
  }

  /** Every compensation undoes its command, the journal told the truth before the run,
      and the commands of the run did what they say. */
  ghost predicate Undoes<W(!new)>(executor: SafeExecutor<W>, base: W, began: State<W>, ops: seq<Op<W>>) {
    && Sound(executor.effect, executor.compensationFor)
    && InStep(executor.effect, base, began)
    && HonestRun(executor.effect, executor.compensationFor, began, ops)
  }

  lemma RunIsUndone<W(!new)>(executor: SafeExecutor<W>, base: W, began: State<W>, ops: seq<Op<W>>)
    requires forall op <- ops :: op.Execute?
    ensures Undoes(executor, base, began, ops) ==>
              Compensated(executor.effect, After(executor.effect, executor.compensationFor, began, ops), |began.entries|).world
              == if TimedOut(ops) then base else began.world
  {
    if Undoes(executor, base, began, ops) {
      UndoneRunEndsAt(executor.effect, executor.compensationFor, base, began, ops);
    }
  }

  ghost predicate UpTo(before: seq<string>, after: seq<string>, tasks: seq<string>, i: nat) {
    i <= |tasks| && after == before + tasks[..i]
  }

  lemma UpToNext(before: seq<string>, after: seq<string>, tasks: seq<string>, i: nat)
    requires i < |tasks| && after == (before + tasks[..i]) + [tasks[i]]
    ensures UpTo(before, after, tasks, i + 1) && Covers(before, after, tasks) && |after| == |before| + i + 1
  {
    assert tasks[..i + 1] == tasks[..i] + [tasks[i]];
  }

  lemma UpToCovers(before: seq<string>, after: seq<string>, tasks: seq<string>, i: nat)
    requires UpTo(before, after, tasks, i)
    ensures Covers(before, after, tasks) && |after| == |before| + i
  {
  }

  /** The plans so far and the next one are the caller's and the planner's. */
  ghost predicate Asked(plans: seq<seq<string>>, tasks: seq<string>, initial: seq<string>, answers: seq<seq<string>>) {
    |plans| == |answers| && plans + [tasks] == [initial] + answers
  }

  lemma AskedNext(plans: seq<seq<string>>, tasks: seq<string>, initial: seq<string>, answers: seq<seq<string>>, repaired: seq<string>)
    requires Asked(plans, tasks, initial, answers)
    ensures Asked(plans + [tasks], repaired, initial, answers + [repaired])
    ensures plans + [tasks] <= [initial] + answers && plans + [tasks] <= [initial] + (answers + [repaired])
  {
    assert (plans + [tasks]) + [repaired] == ([initial] + answers) + [repaired] == [initial] + (answers + [repaired]);
  }

  /** Some of the tasks were begun, from the first on. */
  ghost predicate Covers(before: seq<string>, after: seq<string>, tasks: seq<string>) {
    && |before| <= |after| <= |before| + |tasks|
    && after == before + tasks[..|after| - |before|]
  }

  predicate AllDone(verdicts: seq<Verdict>) { forall v <- verdicts :: v == SaysDone }
}
