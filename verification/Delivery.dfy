/** The delivery protocol of src/bus/consumer.py and src/bus/workers/core.py as a
    state machine: every await is one step, any number of runners, publishers and
    the dispatcher interleave, every broker call and every persistence call may be
    lost before or after its effect, a runner may crash at any step, and the broker
    may hand a pending entry over again at any time. */
module Delivery {
  import opened Common
  import opened Bus

  const RESULTS: string := "steps:results"

  // --------------------------------------------------------- configuration

  /** An opaque handler returns or raises at will; `Worker` is the closure that
      `make_step_worker` registers. */
  datatype Handler = Opaque | Worker(nodeType: string)

  datatype Config = Config(group: string, streams: set<string>, handlers: map<string, Handler>,
                           fallback: Option<Handler>, maxRetries: int, persists: bool)

  function HandlerFor(c: Config, kind: string): Option<Handler> {
    if kind in c.handlers then Some(c.handlers[kind]) else c.fallback
  }

  /** How often the retry loop calls the handler before it gives up. */
  function Attempts(c: Config): nat {
    if c.maxRetries >= 0 then c.maxRetries + 1 else 0
  }

  // -------------------------------------------------------------- verdicts

  datatype Verdict = Finished(output: string) | Failed(error: string)

  datatype Row = Row(run: string, nodeId: string, verdict: Verdict)

  function Suffix(v: Verdict): string { if v.Finished? then "finished" else "failed" }

  function VerdictKey(run: string, nodeId: string, v: Verdict): string {
    run + ":" + nodeId + ":" + Suffix(v)
  }

  function VerdictEvent(row: Row): Event {
    match row.verdict
    case Finished(output) =>
      Event("step.finished", VerdictKey(row.run, row.nodeId, row.verdict), row.run, FinishedBody(row.nodeId, output))
    case Failed(error) =>
      Event("step.failed", VerdictKey(row.run, row.nodeId, row.verdict), row.run, FailedBody(row.nodeId, error))
  }

  /** The worker acts only on a dispatched node of its own type. */
  predicate Matches(h: Handler, e: Event) {
    h.Worker? && e.payload.Dispatch? && e.payload.node.Dict? && e.payload.node.nodeType == h.nodeType
  }

  // ----------------------------------------------------------------- state

  datatype Delivered = Delivered(stream: string, entry: Entry)

  datatype Stage = Entered | Executed(v: Verdict) | Saved(v: Verdict)

  datatype Why = Duplicate | Unhandled | Done | InDlq

  datatype Phase = Idle | Running(attempt: nat, stage: Stage) | Parking | Acking(why: Why)

  /** The counters of one pass: `RunStats`, plus deliveries and the two outcomes
      that class does not count. */
  datatype Tally = Tally(deliveries: nat, processed: nat, errors: nat, dlq: nat, duplicates: nat,
                         backendErrors: nat, unhandled: nat, lostParks: nat, again: nat, againErrors: nat)

  const Zero: Tally := Tally(0, 0, 0, 0, 0, 0, 0, 0, 0, 0)

  /** `batch` holds deliveries still to be settled, the first one in progress;
      `again` the events of a replay or a redrive. */
  datatype Runner = Runner(cfg: Config, seen: set<string>, done: seq<string>, batch: seq<Delivered>,
                           again: seq<Event>, phase: Phase, tally: Tally)

  function NewRunner(cfg: Config): Runner { Runner(cfg, {}, [], [], [], Idle, Zero) }

  predicate Busy(rs: Runner) { rs.batch != [] || rs.again != [] }

  function Current(rs: Runner): Event
    requires Busy(rs)
  {
    if rs.batch != [] then rs.batch[0].entry.event else rs.again[0]
  }

  datatype Completion = Completion(cfg: Config, event: Event)

  datatype Sys = Sys(bus: State, rows: seq<Row>, dispatcherFailures: seq<Row>,
                     completions: seq<Completion>, runners: map<nat, Runner>)

  // ----------------------------------------------------------------- steps

  /** `Lost` never reached the other side; `LostAfter` took effect there, but the
      caller still sees an exception. */
  datatype Reply = Ok | Lost | LostAfter

  datatype Label =
    | Emit(s: string, e: Event)
    | DispatcherFail(run: string, nodeId: string, error: string)
    | StartPass(r: nat)
    | Ensure(r: nat, s: string, reply: Reply)
    | Poll(r: nat, s: string, count: int, reply: Reply)
    | Redeliver(r: nat, s: string, id: nat)
    | Replay(r: nat, s: string)
    | Redrive(r: nat, s: string)
    | Begin(r: nat)
    | Return(r: nat, ok: bool)
    | Skip(r: nat)
    | Exec(r: nat, v: Verdict)
    | Persist(r: nat, reply: Reply)
    | Announce(r: nat, reply: Reply)
    | Park(r: nat, reason: string, reply: Reply)
    | Ack(r: nat, reply: Reply)
    | Crash(r: nat)

  predicate ByRunner(l: Label) { !l.Emit? && !l.DispatcherFail? }

  predicate Waiting(rs: Runner) { rs.phase.Idle? && !Busy(rs) }

  predicate InHandler(rs: Runner, stage: Stage) {
    && Busy(rs) && rs.phase.Running? && rs.phase.stage == stage
    && HandlerFor(rs.cfg, Current(rs).kind).Some?
  }

  function HandlerOf(rs: Runner): Handler
    requires Busy(rs) && HandlerFor(rs.cfg, Current(rs).kind).Some?
  {
    HandlerFor(rs.cfg, Current(rs).kind).value
  }

  predicate Enabled(s: Sys, l: Label) {
    if l.Emit? then l.s != RESULTS
    else if l.DispatcherFail? then true
    else
      l.r in s.runners &&
      var rs := s.runners[l.r];
      match l
      case StartPass(_) => Waiting(rs)
      case Ensure(_, t, _) => Waiting(rs) && t in rs.cfg.streams
      case Poll(_, t, _, _) => Waiting(rs) && t in rs.cfg.streams
      case Redeliver(_, t, id) => Waiting(rs) && t in rs.cfg.streams && id in PendingOf(s.bus, t, rs.cfg.group)
      case Replay(_, _) => Waiting(rs)
      case Redrive(_, _) => Waiting(rs)
      case Begin(_) => rs.phase.Idle? && Busy(rs)
      case Return(_, _) => InHandler(rs, Entered) && HandlerOf(rs).Opaque?
      case Skip(_) => InHandler(rs, Entered) && HandlerOf(rs).Worker? && !Matches(HandlerOf(rs), Current(rs))
      case Exec(_, _) => InHandler(rs, Entered) && Matches(HandlerOf(rs), Current(rs))
      case Persist(_, _) => Busy(rs) && rs.phase.Running? && rs.phase.stage.Executed?
      case Announce(_, _) => Busy(rs) && rs.phase.Running? && rs.phase.stage.Saved?
      case Park(_, _, _) => rs.phase.Parking? && rs.batch != []
      case Ack(_, _) => rs.phase.Acking? && rs.batch != []
      case Crash(_) => true
  }

  /** The row the worker persists, and whose verdict it announces, for its event. */
  function RowFor(e: Event, v: Verdict): Row {
    Row(e.run, if e.payload.Dispatch? then e.payload.nodeId else "", v)
  }

  /** The one broker call a step makes, if any reaches the broker. */
  function BusOp(s: Sys, l: Label): Option<Op>
    requires Enabled(s, l)
  {
    match l
    case Emit(t, e) => Some(PublishOp(t, e))
    case DispatcherFail(run, node, error) => Some(PublishOp(RESULTS, VerdictEvent(Row(run, node, Failed(error)))))
    case Ensure(r, t, reply) =>
      if reply.Lost? then None else Some(EnsureOp(t, s.runners[r].cfg.group))
    case Poll(r, t, count, reply) =>
      if reply.Lost? then None else Some(ReadOp(t, s.runners[r].cfg.group, count))
    case Announce(r, reply) =>
      var rs := s.runners[r];
      if reply.Lost? then None
      else Some(PublishOp(RESULTS, VerdictEvent(RowFor(Current(rs), rs.phase.stage.v))))
    case Park(r, reason, reply) =>
      var d := s.runners[r].batch[0];
      if reply.Lost? then None else Some(ParkOp(d.stream, d.entry.event, reason))
    case Ack(r, reply) =>
      var d := s.runners[r].batch[0];
      if reply.Lost? then None else Some(AckOp(d.stream, s.runners[r].cfg.group, d.entry.id))
    case _ => None
  }

  function BusAfter(s: Sys, l: Label): State
    requires Enabled(s, l)
  {
    match BusOp(s, l)
    case None => s.bus
    case Some(op) => Do(s.bus, op)
  }

  function RowsAfter(s: Sys, l: Label): seq<Row>
    requires Enabled(s, l)
  {
    if l.Persist? && !l.reply.Lost? then
      s.rows + [RowFor(Current(s.runners[l.r]), s.runners[l.r].phase.stage.v)]
    else s.rows
  }

  predicate Completes(l: Label) {
    (l.Return? && l.ok) || l.Skip? || (l.Announce? && l.reply.Ok?)
  }

  predicate Raises(l: Label) {
    (l.Return? && !l.ok) || (l.Persist? && !l.reply.Ok?) || (l.Announce? && !l.reply.Ok?)
  }

  function CompletionsAfter(s: Sys, l: Label): seq<Completion>
    requires Enabled(s, l)
  {
    if Completes(l) then s.completions + [Completion(s.runners[l.r].cfg, Current(s.runners[l.r]))]
    else s.completions
  }

  function Dropped(rs: Runner): Runner
    requires Busy(rs)
  {
    if rs.batch != [] then rs.(batch := rs.batch[1..], phase := Idle)
    else rs.(again := rs.again[1..], phase := Idle)
  }

  function BackendError(rs: Runner): Runner {
    rs.(tally := rs.tally.(backendErrors := rs.tally.backendErrors + 1))
  }

  /** The handler returned: a delivery is now seen and goes on to its acknowledgement. */
  function Completed(rs: Runner): Runner
    requires Busy(rs)
  {
    if rs.batch != [] then
      rs.(seen := rs.seen + {Current(rs).key}, done := rs.done + [Current(rs).key], phase := Acking(Done),
          tally := rs.tally.(processed := rs.tally.processed + 1))
    else Dropped(rs.(tally := rs.tally.(again := rs.tally.again + 1)))
  }

  /** The handler raised: a delivery is tried again or goes to the dead-letter queue. */
  function Raised(rs: Runner): Runner
    requires Busy(rs) && rs.phase.Running?
  {
    if rs.batch != [] then
      rs.(phase := if rs.phase.attempt <= rs.cfg.maxRetries then Running(rs.phase.attempt + 1, Entered) else Parking,
          tally := rs.tally.(errors := rs.tally.errors + 1))
    else Dropped(rs.(tally := rs.tally.(againErrors := rs.tally.againErrors + 1)))
  }

  /** The dead-letter call came back, or was lost and ends this delivery. */
  function AfterPark(rs: Runner, ok: bool): Runner
    requires Busy(rs)
  {
    if ok then rs.(phase := Acking(InDlq), tally := rs.tally.(dlq := rs.tally.dlq + 1))
    else Dropped(BackendError(rs.(tally := rs.tally.(lostParks := rs.tally.lostParks + 1))))
  }

  function Begun(rs: Runner): Runner
    requires Busy(rs)
  {
    var h := HandlerFor(rs.cfg, Current(rs).kind);
    if rs.batch == [] then
      if h.None? then Dropped(rs) else rs.(phase := Running(1, Entered))
    else if Current(rs).key in rs.seen then
      rs.(phase := Acking(Duplicate), tally := rs.tally.(duplicates := rs.tally.duplicates + 1))
    else if h.None? then
      rs.(phase := Acking(Unhandled), tally := rs.tally.(unhandled := rs.tally.unhandled + 1))
    else
      rs.(phase := if rs.cfg.maxRetries >= 0 then Running(1, Entered) else Parking)
  }

  function Handed(stream: string, batch: seq<Entry>): seq<Delivered> {
    seq(|batch|, i requires 0 <= i < |batch| => Delivered(stream, batch[i]))
  }

  function EventsOf(entries: seq<Entry>): seq<Event> {
    seq(|entries|, i requires 0 <= i < |entries| => entries[i].event)
  }

  function EventsParked(parked: seq<Parked>): seq<Event> {
    seq(|parked|, i requires 0 <= i < |parked| => parked[i].event)
  }

  function RunnerAfter(s: Sys, l: Label): Runner
    requires Enabled(s, l) && ByRunner(l)
  {
    var rs := s.runners[l.r];
    match l
    case StartPass(_) => rs.(tally := Zero)
    case Ensure(_, _, reply) => if reply.Ok? then rs else BackendError(rs)
    case Poll(_, t, count, reply) =>
      var batch := Batch(s.bus, t, rs.cfg.group, count);
      if reply.Ok? then
        rs.(batch := Handed(t, batch), tally := rs.tally.(deliveries := rs.tally.deliveries + |batch|))
      else BackendError(rs)
    case Redeliver(_, t, id) =>
      rs.(batch := [Delivered(t, Entry(id, PendingOf(s.bus, t, rs.cfg.group)[id]))],
          tally := rs.tally.(deliveries := rs.tally.deliveries + 1))
    case Replay(_, t) => rs.(again := EventsOf(Entries(s.bus, t)))
    case Redrive(_, t) => rs.(again := EventsParked(DlqOf(s.bus, t)))
    case Begin(_) => Begun(rs)
    case Return(_, ok) => if ok then Completed(rs) else Raised(rs)
    case Skip(_) => Completed(rs)
    case Exec(_, v) => rs.(phase := rs.phase.(stage := if rs.cfg.persists then Executed(v) else Saved(v)))
    case Persist(_, reply) =>
      if reply.Ok? then rs.(phase := rs.phase.(stage := Saved(rs.phase.stage.v))) else Raised(rs)
    case Announce(_, reply) => if reply.Ok? then Completed(rs) else Raised(rs)
    case Park(_, _, reply) => AfterPark(rs, reply.Ok?)
    case Ack(_, reply) => if reply.Ok? then Dropped(rs) else Dropped(BackendError(rs))
    case Crash(_) => NewRunner(rs.cfg)
  }

  function Apply(s: Sys, l: Label): Sys
    requires Enabled(s, l)
  {
    Sys(BusAfter(s, l), RowsAfter(s, l),
        if l.DispatcherFail? then s.dispatcherFailures + [Row(l.run, l.nodeId, Failed(l.error))]
        else s.dispatcherFailures,
        CompletionsAfter(s, l),
        if ByRunner(l) then s.runners[l.r := RunnerAfter(s, l)] else s.runners)
  }

  // ------------------------------------------------------------------ runs

  predicate Initial(s: Sys) {
    && s.bus == Empty && s.rows == [] && s.dispatcherFailures == [] && s.completions == []
    && forall r :: r in s.runners ==> s.runners[r] == NewRunner(s.runners[r].cfg)
  }

  predicate Legal(s: Sys, run: seq<Label>)
    decreases |run|
  {
    run == [] || (Enabled(s, run[0]) && Legal(Apply(s, run[0]), run[1..]))
  }

  function After(s: Sys, run: seq<Label>): Sys
    requires Legal(s, run)
    decreases |run|
  {
    if run == [] then s else After(Apply(s, run[0]), run[1..])
  }
}
