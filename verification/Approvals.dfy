/** Approval requests (src/app/approvals.py): quorum, rejection, expiry, and the audit
    record of each. */
module Approvals {
  import opened Common
  import opened Audit

  datatype Status = Pending | Approved | Rejected | Expired | Cancelled

  datatype Request = Request(execution: string, node: string, quorum: int, status: Status, expires: int, created: int)

  datatype Vote = Approve | Reject

  datatype Decision = Decision(execution: string, node: string, vote: Vote, decidedBy: string, decidedAt: int, reason: string)

  /** The tables, and the audit chains when auditing is on. */
  datatype State = State(requests: seq<Request>, decisions: seq<Decision>, audit: Option<map<string, seq<Row>>>)

  datatype Outcome = Done(request: Request) | Swept(expired: seq<Request>) | ValueError | KeyError | Refused(status: Status)

  // -- small pieces ----------------------------------------------------------

  const APPROVAL_DECISION := "approval.decision"

  function Upper(s: string): string {
    if s == "" then ""
    else [if 'a' <= s[0] <= 'z' then (s[0] as int - 32) as char else s[0]] + Upper(s[1..])
  }

  function Normalized(verdict: string): Option<Vote> {
    if Upper(verdict) == "APPROVED" then Some(Approve)
    else if Upper(verdict) == "REJECTED" then Some(Reject)
    else None
  }

  /** A moment in microseconds, written down to the second. */
  function ToSecond(moment: int): int { moment - moment % 1000000 }

  /** What an approval event records; `reason` is the caller's text or the service's own. */
  datatype Reason = Given(text: string) | BeforeDecision | WhilePending

  datatype Record = Record(node: string, status: Status, decidedBy: string, reason: Reason)

  /** The hash of the audit chain, and how a record is written as canonical JSON. */
  datatype Env = Env(hash: RowHash, render: Record -> string)

  function Audited(env: Env, audit: Option<map<string, seq<Row>>>, execution: string, record: Record)
    : Option<map<string, seq<Row>>>
  {
    if audit.None? then None else Some(Appended(env.hash, audit.value, execution, APPROVAL_DECISION, env.render(record)))
  }

  predicate For(r: Request, execution: string, node: string) { r.execution == execution && r.node == node }

  /** The first request for a node, or the number of requests when there is none. */
  function IndexOf(requests: seq<Request>, execution: string, node: string): (i: nat)
    ensures i <= |requests|
    ensures forall j :: 0 <= j < i ==> !For(requests[j], execution, node)
    ensures i < |requests| ==> For(requests[i], execution, node)
  {
    if requests == [] || For(requests[0], execution, node) then 0
    else 1 + IndexOf(requests[1..], execution, node)
  }

  function Approvers(decisions: seq<Decision>, execution: string, node: string): set<string> {
    set d | d in decisions && d.execution == execution && d.node == node && d.vote == Approve :: d.decidedBy
  }

  predicate AnyRejection(decisions: seq<Decision>, execution: string, node: string) {
    exists d :: d in decisions && d.execution == execution && d.node == node && d.vote == Reject
  }

  function Tally(decisions: seq<Decision>, r: Request): Status {
    if AnyRejection(decisions, r.execution, r.node) then Rejected
    else if |Approvers(decisions, r.execution, r.node)| >= r.quorum then Approved
    else Pending
  }

  // -- operations ------------------------------------------------------------

  datatype Op =
    | Ask(execution: string, node: string, quorum: int, ttl: int, now: int)
    | Decide(execution: string, node: string, approver: string, verdict: string, reason: string, now: int)
    | Cancel(execution: string, node: string)
    | Sweep(now: int)
    | OtherEvent(execution: string, event: string, payload: string)  // the rest of the system, on the same chains

  function SetStatus(s: State, i: nat, status: Status): State
    requires i < |s.requests|
  {
    s.(requests := s.requests[i := s.requests[i].(status := status)])
  }

  function AskAt(s: State, op: Op): (State, Outcome)
    requires op.Ask?
  {
    var i := IndexOf(s.requests, op.execution, op.node);
    if op.quorum < 1 then (s, ValueError)
    else if i < |s.requests| then (s, Done(s.requests[i]))
    else
      var r := Request(op.execution, op.node, op.quorum, Pending, ToSecond(op.now + 1000000 * op.ttl), op.now);
      (s.(requests := s.requests + [r]), Done(r))
  }

  function Voted(env: Env, s: State, op: Op, i: nat, vote: Vote): State
    requires op.Decide? && i < |s.requests|
  {
    var d := Decision(op.execution, op.node, vote, op.approver, op.now, op.reason);
    var decisions := s.decisions + [d];
    var status := Tally(decisions, s.requests[i]);
    var reason := if op.reason != "" then op.reason else Upper(op.verdict);
    SetStatus(s, i, status).(decisions := decisions,
                             audit := Audited(env, s.audit, op.execution, Record(op.node, status, op.approver, Given(reason))))
  }

  function TooLate(env: Env, s: State, op: Op, i: nat): State
    requires op.Decide? && i < |s.requests|
  {
    SetStatus(s, i, Expired).(audit := Audited(env, s.audit, op.execution,
                                               Record(op.node, Expired, "", BeforeDecision)))
  }

  function DecideAt(env: Env, s: State, op: Op): (State, Outcome)
    requires op.Decide?
  {
    var i := IndexOf(s.requests, op.execution, op.node);
    if i == |s.requests| then (s, KeyError)
    else
      var r := s.requests[i];
      var vote := Normalized(op.verdict);
      if r.status != Pending then (s, Refused(r.status))
      else if r.expires <= op.now then (TooLate(env, s, op, i), Refused(Expired))
      else if vote.None? then (s, ValueError)
      else
        var s' := Voted(env, s, op, i, vote.value);
        (s', Done(s'.requests[i]))
  }

  function CancelAt(s: State, op: Op): (State, Outcome)
    requires op.Cancel?
  {
    var i := IndexOf(s.requests, op.execution, op.node);
    if i == |s.requests| then (s, KeyError)
    else if s.requests[i].status != Pending then (s, Refused(s.requests[i].status))
    else
      var s' := SetStatus(s, i, Cancelled);
      (s', Done(s'.requests[i]))
  }

  predicate Overdue(r: Request, now: int) { r.status == Pending && r.expires <= now }

  function SweptRequests(requests: seq<Request>, now: int): (r: seq<Request>)
    ensures |r| == |requests|
    ensures forall i :: 0 <= i < |r| ==>
              r[i] == if Overdue(requests[i], now) then requests[i].(status := Expired) else requests[i]
  {
    if requests == [] then []
    else
      var last := requests[|requests| - 1];
      SweptRequests(requests[..|requests| - 1], now) + [if Overdue(last, now) then last.(status := Expired) else last]
  }

  function OverdueRequests(requests: seq<Request>, now: int): seq<Request> {
    if requests == [] then []
    else
      var last := requests[|requests| - 1];
      OverdueRequests(requests[..|requests| - 1], now) + (if Overdue(last, now) then [last.(status := Expired)] else [])
  }

  function ExpiryRecord(r: Request): Record { Record(r.node, Expired, "", WhilePending) }

  function ExpiryAudited(env: Env, audit: Option<map<string, seq<Row>>>, expired: seq<Request>)
    : Option<map<string, seq<Row>>>
  {
    if expired == [] then audit
    else
      var last := expired[|expired| - 1];
      Audited(env, ExpiryAudited(env, audit, expired[..|expired| - 1]), last.execution, ExpiryRecord(last))
  }

  function SweepAt(env: Env, s: State, now: int): (State, Outcome) {
    var expired := OverdueRequests(s.requests, now);
    (s.(requests := SweptRequests(s.requests, now), audit := ExpiryAudited(env, s.audit, expired)), Swept(expired))
  }

  function Apply(env: Env, s: State, op: Op): (State, Outcome) {
    match op
    case Ask(_, _, _, _, _) => AskAt(s, op)
    case Decide(_, _, _, _, _, _) => DecideAt(env, s, op)
    case Cancel(_, _) => CancelAt(s, op)
    case Sweep(now) => SweepAt(env, s, now)
    case OtherEvent(execution, event, payload) =>
      (if s.audit.None? then s else s.(audit := Some(Appended(env.hash, s.audit.value, execution, event, payload))), Swept([]))
  }

  /** The approval service is the only writer of approval events. */
  predicate Legal(op: Op) { op.OtherEvent? ==> op.event != APPROVAL_DECISION }

  function After(env: Env, s: State, ops: seq<Op>): State {
    if ops == [] then s else Apply(env, After(env, s, ops[..|ops| - 1]), ops[|ops| - 1]).0
  }

  function Initial(auditing: bool): State { State([], [], if auditing then Some(map[]) else None) }

  // -- invariant -------------------------------------------------------------

  /** The status of a request says exactly what its decisions say. */
  predicate RequestOk(decisions: seq<Decision>, r: Request) {
    && r.quorum >= 1
    && (r.status == Rejected <==> AnyRejection(decisions, r.execution, r.node))
    && (r.status == Approved <==>
          !AnyRejection(decisions, r.execution, r.node) && |Approvers(decisions, r.execution, r.node)| >= r.quorum)
  }

  /** A decision belongs to a request and came before its deadline. */
  predicate InTime(requests: seq<Request>, d: Decision) {
    exists i :: 0 <= i < |requests| && For(requests[i], d.execution, d.node) && d.decidedAt < requests[i].expires
  }

  predicate UniqueKeys(requests: seq<Request>) {
    forall i, j :: 0 <= i < j < |requests| ==> !For(requests[i], requests[j].execution, requests[j].node)
  }

  predicate TablesOk(s: State) {
    && UniqueKeys(s.requests)
    && (forall r <- s.requests :: RequestOk(s.decisions, r))
    && (forall d <- s.decisions :: InTime(s.requests, d))
  }

  function DecisionsOf(decisions: seq<Decision>, execution: string): nat {
    if decisions == [] then 0
    else DecisionsOf(decisions[..|decisions| - 1], execution) + (if decisions[|decisions| - 1].execution == execution then 1 else 0)
  }

  function ExpiredOf(requests: seq<Request>, execution: string): nat {
    if requests == [] then 0
    else
      var last := requests[|requests| - 1];
      ExpiredOf(requests[..|requests| - 1], execution) + (if last.execution == execution && last.status == Expired then 1 else 0)
  }

  function ApprovalRows(rows: seq<Row>): nat {
    if rows == [] then 0
    else ApprovalRows(rows[..|rows| - 1]) + (if rows[|rows| - 1].event == APPROVAL_DECISION then 1 else 0)
  }

  /** The approval events of a chain are the decisions and expiries of its execution. */
  predicate Accounted(s: State, execution: string)
    requires s.audit.Some?
  {
    ApprovalRows(RowsOf(s.audit.value, execution)) ==
    DecisionsOf(s.decisions, execution) + ExpiredOf(s.requests, execution)
  }

  ghost predicate AuditOk(env: Env, s: State) {
    s.audit.Some? ==> AllOk(env.hash, s.audit.value) && forall e :: Accounted(s, e)
  }

  ghost predicate Inv(env: Env, s: State) { TablesOk(s) && AuditOk(env, s) }

  // -- the tables --------------------------------------------------------------

  lemma NewDecision(decisions: seq<Decision>, d: Decision, execution: string, node: string)
    ensures var here := d.execution == execution && d.node == node;
            && Approvers(decisions + [d], execution, node) ==
               Approvers(decisions, execution, node) + (if here && d.vote == Approve then {d.decidedBy} else {})
            && (AnyRejection(decisions + [d], execution, node) <==>
                AnyRejection(decisions, execution, node) || (here && d.vote == Reject))
  {
    var all := decisions + [d];
    assert forall x :: x in all <==> x in decisions || x == d;
    if d.execution == execution && d.node == node && d.vote == Reject { assert d in all; }
    if AnyRejection(decisions, execution, node) {
      var x :| x in decisions && x.execution == execution && x.node == node && x.vote == Reject;
      assert x in all;
    }
  }

  lemma StillInTime(requests: seq<Request>, requests': seq<Request>, d: Decision)
    requires InTime(requests, d) && |requests| <= |requests'|
    requires forall i :: 0 <= i < |requests| ==> requests'[i].(status := requests[i].status) == requests[i]
    ensures InTime(requests', d)
  {
    var i :| 0 <= i < |requests| && For(requests[i], d.execution, d.node) && d.decidedAt < requests[i].expires;
    assert requests'[i].(status := requests[i].status) == requests[i];
    assert For(requests'[i], d.execution, d.node);
  }

  lemma AskKeepsTables(s: State, op: Op)
    requires op.Ask? && TablesOk(s)
    ensures TablesOk(AskAt(s, op).0)
  {
    var s' := AskAt(s, op).0;
    if s' != s {
      var r := s'.requests[|s.requests|];
      forall d | d in s.decisions ensures InTime(s'.requests, d) && !For(r, d.execution, d.node) {
        StillInTime(s.requests, s'.requests, d);
      }
      assert Approvers(s.decisions, r.execution, r.node) == {};
      assert !AnyRejection(s.decisions, r.execution, r.node);
    }
  }

  lemma StatusKeepsTables(s: State, i: nat, status: Status)
    requires TablesOk(s) && i < |s.requests| && s.requests[i].status == Pending
    requires status == Expired || status == Cancelled
    ensures TablesOk(SetStatus(s, i, status))
  {
    var s' := SetStatus(s, i, status);
    forall d | d in s.decisions ensures InTime(s'.requests, d) { StillInTime(s.requests, s'.requests, d); }
    forall r | r in s'.requests ensures RequestOk(s.decisions, r) {
      var j :| 0 <= j < |s'.requests| && s'.requests[j] == r;
      assert RequestOk(s.decisions, s.requests[j]);
    }
  }

  lemma SweepKeepsTables(s: State, now: int)
    requires TablesOk(s)
    ensures TablesOk(s.(requests := SweptRequests(s.requests, now)))
  {
    var swept := SweptRequests(s.requests, now);
    forall d | d in s.decisions ensures InTime(swept, d) { StillInTime(s.requests, swept, d); }
    forall r | r in swept ensures RequestOk(s.decisions, r) {
      var j :| 0 <= j < |swept| && swept[j] == r;
      assert RequestOk(s.decisions, s.requests[j]);
    }
  }

  lemma VoteKeepsOthers(s: State, d: Decision, i: nat, j: nat)
    requires TablesOk(s) && i < |s.requests| && j < |s.requests| && i != j && For(s.requests[i], d.execution, d.node)
    ensures RequestOk(s.decisions + [d], s.requests[j])
  {
    var r := s.requests[j];
    assert RequestOk(s.decisions, r);
    assert !For(s.requests[i], r.execution, r.node);
    NewDecision(s.decisions, d, r.execution, r.node);
  }

  lemma VoteKeepsTables(env: Env, s: State, op: Op, i: nat, vote: Vote)
    requires op.Decide? && TablesOk(s) && i < |s.requests| && For(s.requests[i], op.execution, op.node)
    requires s.requests[i].status == Pending && op.now < s.requests[i].expires
    ensures TablesOk(Voted(env, s, op, i, vote))
  {
    var s' := Voted(env, s, op, i, vote);
    var d := s'.decisions[|s.decisions|];
    assert s'.decisions == s.decisions + [d];
    forall x | x in s'.decisions ensures InTime(s'.requests, x) {
      if x in s.decisions {
        StillInTime(s.requests, s'.requests, x);
      } else {
        assert For(s'.requests[i], d.execution, d.node);
      }
    }
    assert s.requests[i] in s.requests;
    forall r | r in s'.requests ensures RequestOk(s'.decisions, r) {
      var j :| 0 <= j < |s'.requests| && s'.requests[j] == r;
      if j != i { VoteKeepsOthers(s, d, i, j); }
    }
  }

  // -- the audit record ----------------------------------------------------------

  lemma RowAdded(rows: seq<Row>, row: Row)
    ensures ApprovalRows(rows + [row]) == ApprovalRows(rows) + (if row.event == APPROVAL_DECISION then 1 else 0)
  {
    assert (rows + [row])[..|rows|] == rows;
  }

  lemma AppendCounts(env: Env, chains: map<string, seq<Row>>, execution: string, event: string, payload: string, e: string)
    ensures ApprovalRows(RowsOf(Appended(env.hash, chains, execution, event, payload), e)) ==
            ApprovalRows(RowsOf(chains, e)) + (if e == execution && event == APPROVAL_DECISION then 1 else 0)
  {
    var rows := RowsOf(chains, execution);
    RowAdded(rows, NewRow(env.hash, rows, event, payload));
  }

  lemma {:induction false} StatusCounts(requests: seq<Request>, i: nat, status: Status, e: string)
    requires i < |requests| && requests[i].status == Pending
    ensures ExpiredOf(requests[i := requests[i].(status := status)], e) ==
            ExpiredOf(requests, e) + (if requests[i].execution == e && status == Expired then 1 else 0)
  {
    var n := |requests| - 1;
    var changed := requests[i := requests[i].(status := status)];
    if i < n {
      StatusCounts(requests[..n], i, status, e);
      assert changed[..n] == requests[..n][i := requests[i].(status := status)];
    } else {
      assert changed[..n] == requests[..n];
    }
  }

  function RequestsOf(requests: seq<Request>, execution: string): nat {
    if requests == [] then 0
    else RequestsOf(requests[..|requests| - 1], execution) + (if requests[|requests| - 1].execution == execution then 1 else 0)
  }

  lemma RequestAdded(requests: seq<Request>, r: Request, e: string)
    ensures ExpiredOf(requests + [r], e) == ExpiredOf(requests, e) + (if r.execution == e && r.status == Expired then 1 else 0)
    ensures RequestsOf(requests + [r], e) == RequestsOf(requests, e) + (if r.execution == e then 1 else 0)
  {
    assert (requests + [r])[..|requests|] == requests;
  }

  lemma {:induction false} SweepCounts(requests: seq<Request>, now: int, e: string)
    ensures ExpiredOf(SweptRequests(requests, now), e) == ExpiredOf(requests, e) + RequestsOf(OverdueRequests(requests, now), e)
  {
    if requests != [] {
      var init, last := requests[..|requests| - 1], requests[|requests| - 1];
      SweepCounts(init, now, e);
      assert requests == init + [last];
      RequestAdded(init, last, e);
      var last' := if Overdue(last, now) then last.(status := Expired) else last;
      assert SweptRequests(requests, now) == SweptRequests(init, now) + [last'];
      RequestAdded(SweptRequests(init, now), last', e);
      if Overdue(last, now) {
        assert OverdueRequests(requests, now) == OverdueRequests(init, now) + [last'];
        RequestAdded(OverdueRequests(init, now), last', e);
      } else {
        assert OverdueRequests(requests, now) == OverdueRequests(init, now) + [] == OverdueRequests(init, now);
      }
    }
  }

  lemma {:induction false} ExpiryKeepsStore(env: Env, chains: map<string, seq<Row>>, expired: seq<Request>)
    requires AllOk(env.hash, chains)
    ensures ExpiryAudited(env, Some(chains), expired).Some?
    ensures AllOk(env.hash, ExpiryAudited(env, Some(chains), expired).value)
  {
    if expired != [] {
      var init, last := expired[..|expired| - 1], expired[|expired| - 1];
      ExpiryKeepsStore(env, chains, init);
      AppendKeepsStore(env.hash, ExpiryAudited(env, Some(chains), init).value, last.execution, APPROVAL_DECISION, env.render(ExpiryRecord(last)));
    }
  }

  lemma {:induction false} ExpiryCounts(env: Env, chains: map<string, seq<Row>>, expired: seq<Request>, e: string)
    ensures ExpiryAudited(env, Some(chains), expired).Some?
    ensures ApprovalRows(RowsOf(ExpiryAudited(env, Some(chains), expired).value, e)) ==
            ApprovalRows(RowsOf(chains, e)) + RequestsOf(expired, e)
  {
    if expired != [] {
      var init, last := expired[..|expired| - 1], expired[|expired| - 1];
      ExpiryCounts(env, chains, init, e);
      var chains' := ExpiryAudited(env, Some(chains), init).value;
      AppendCounts(env, chains', last.execution, APPROVAL_DECISION, env.render(ExpiryRecord(last)), e);
    }
  }

  // -- every step and every run ----------------------------------------------------

  /** One more record for the execution, and one more decision or expiry. */
  lemma RecordKeepsAudit(env: Env, s: State, s': State, execution: string, record: Record)
    requires AuditOk(env, s) && s'.audit == Audited(env, s.audit, execution, record)
    requires forall e :: DecisionsOf(s'.decisions, e) + ExpiredOf(s'.requests, e) ==
                         DecisionsOf(s.decisions, e) + ExpiredOf(s.requests, e) + (if e == execution then 1 else 0)
    ensures AuditOk(env, s')
  {
    if s.audit.Some? {
      AppendKeepsStore(env.hash, s.audit.value, execution, APPROVAL_DECISION, env.render(record));
      forall e ensures Accounted(s', e) {
        assert Accounted(s, e);
        AppendCounts(env, s.audit.value, execution, APPROVAL_DECISION, env.render(record), e);
      }
    }
  }

  lemma VoteKeepsAudit(env: Env, s: State, op: Op, i: nat, vote: Vote)
    requires op.Decide? && i < |s.requests| && s.requests[i].status == Pending && AuditOk(env, s)
    ensures AuditOk(env, Voted(env, s, op, i, vote))
  {
    var s' := Voted(env, s, op, i, vote);
    var d := s'.decisions[|s.decisions|];
    var status := s'.requests[i].status;
    var reason := if op.reason != "" then op.reason else Upper(op.verdict);
    assert status != Expired;
    forall e ensures DecisionsOf(s'.decisions, e) + ExpiredOf(s'.requests, e) ==
                     DecisionsOf(s.decisions, e) + ExpiredOf(s.requests, e) + (if e == op.execution then 1 else 0) {
      StatusCounts(s.requests, i, status, e);
      assert s'.decisions[..|s.decisions|] == s.decisions;
    }
    RecordKeepsAudit(env, s, s', op.execution, Record(op.node, status, op.approver, Given(reason)));
  }

  lemma TooLateKeepsAudit(env: Env, s: State, op: Op, i: nat)
    requires op.Decide? && i < |s.requests| && s.requests[i].status == Pending && AuditOk(env, s)
    requires s.requests[i].execution == op.execution
    ensures AuditOk(env, TooLate(env, s, op, i))
  {
    var s' := TooLate(env, s, op, i);
    forall e ensures DecisionsOf(s'.decisions, e) + ExpiredOf(s'.requests, e) ==
                     DecisionsOf(s.decisions, e) + ExpiredOf(s.requests, e) + (if e == op.execution then 1 else 0) {
      StatusCounts(s.requests, i, Expired, e);
    }
    RecordKeepsAudit(env, s, s', op.execution, Record(op.node, Expired, "", BeforeDecision));
  }

  lemma TooLateKeepsInv(env: Env, s: State, op: Op, i: nat)
    requires op.Decide? && Inv(env, s) && i < |s.requests| && s.requests[i].status == Pending
    requires s.requests[i].execution == op.execution
    ensures Inv(env, TooLate(env, s, op, i))
  {
    StatusKeepsTables(s, i, Expired);
    TooLateKeepsAudit(env, s, op, i);
    SameTables(SetStatus(s, i, Expired), TooLate(env, s, op, i));
  }

  lemma SameTables(s: State, s': State)
    requires TablesOk(s) && s'.requests == s.requests && s'.decisions == s.decisions
    ensures TablesOk(s')
  {
  }

  lemma VoteKeepsInv(env: Env, s: State, op: Op, i: nat, vote: Vote)
    requires op.Decide? && Inv(env, s) && i < |s.requests| && For(s.requests[i], op.execution, op.node)
    requires s.requests[i].status == Pending && op.now < s.requests[i].expires
    ensures Inv(env, Voted(env, s, op, i, vote))
  {
    VoteKeepsTables(env, s, op, i, vote);
    VoteKeepsAudit(env, s, op, i, vote);
  }

  predicate Votable(s: State, op: Op, i: nat)
    requires op.Decide?
  {
    i < |s.requests| && For(s.requests[i], op.execution, op.node) && s.requests[i].status == Pending
  }

  /** What a decision can do: nothing, expire its request, or record a vote. */
  lemma DecideCases(env: Env, s: State, op: Op) returns (i: nat, vote: Vote)
    requires op.Decide?
    ensures
      || DecideAt(env, s, op).0 == s
      || (Votable(s, op, i) && s.requests[i].expires <= op.now && DecideAt(env, s, op).0 == TooLate(env, s, op, i))
      || (Votable(s, op, i) && op.now < s.requests[i].expires && DecideAt(env, s, op).0 == Voted(env, s, op, i, vote))
  {
    i := IndexOf(s.requests, op.execution, op.node);
    vote := if Normalized(op.verdict).Some? then Normalized(op.verdict).value else Reject;
  }

  lemma DecideKeepsInv(env: Env, s: State, op: Op)
    requires op.Decide? && Inv(env, s)
    ensures Inv(env, DecideAt(env, s, op).0)
  {
    var i, vote := DecideCases(env, s, op);
    var s' := DecideAt(env, s, op).0;
    if s' != s {
      if s.requests[i].expires <= op.now {
        TooLateKeepsInv(env, s, op, i);
      } else {
        VoteKeepsInv(env, s, op, i, vote);
      }
    }
  }

  /** Same decisions, same expiries, same chains. */
  lemma QuietKeepsAudit(env: Env, s: State, s': State)
    requires AuditOk(env, s) && s'.audit == s.audit && s'.decisions == s.decisions
    requires forall e :: ExpiredOf(s'.requests, e) == ExpiredOf(s.requests, e)
    ensures AuditOk(env, s')
  {
    if s.audit.Some? {
      forall e ensures Accounted(s', e) { assert Accounted(s, e); }
    }
  }

  lemma AskKeepsInv(env: Env, s: State, op: Op)
    requires op.Ask? && Inv(env, s)
    ensures Inv(env, AskAt(s, op).0)
  {
    AskKeepsTables(s, op);
    var s' := AskAt(s, op).0;
    if s' != s {
      forall e ensures ExpiredOf(s'.requests, e) == ExpiredOf(s.requests, e) {
        RequestAdded(s.requests, s'.requests[|s.requests|], e);
      }
      QuietKeepsAudit(env, s, s');
    }
  }

  lemma CancelKeepsInv(env: Env, s: State, op: Op)
    requires op.Cancel? && Inv(env, s)
    ensures Inv(env, CancelAt(s, op).0)
  {
    var i := IndexOf(s.requests, op.execution, op.node);
    if i < |s.requests| && s.requests[i].status == Pending {
      StatusKeepsTables(s, i, Cancelled);
      forall e ensures ExpiredOf(SetStatus(s, i, Cancelled).requests, e) == ExpiredOf(s.requests, e) {
        StatusCounts(s.requests, i, Cancelled, e);
      }
      QuietKeepsAudit(env, s, SetStatus(s, i, Cancelled));
    }
  }

  lemma SweepKeepsInv(env: Env, s: State, now: int)
    requires Inv(env, s)
    ensures Inv(env, SweepAt(env, s, now).0)
  {
    SweepKeepsTables(s, now);
    var s' := SweepAt(env, s, now).0;
    assert TablesOk(s');
    if s.audit.Some? {
      var expired := OverdueRequests(s.requests, now);
      ExpiryKeepsStore(env, s.audit.value, expired);
      forall e ensures Accounted(s', e) {
        assert Accounted(s, e);
        ExpiryCounts(env, s.audit.value, expired, e);
        SweepCounts(s.requests, now, e);
      }
    } else {
      NothingAudited(env, OverdueRequests(s.requests, now));
    }
  }

  lemma {:induction false} NothingAudited(env: Env, expired: seq<Request>)
    ensures ExpiryAudited(env, None, expired) == None
  {
    if expired != [] { NothingAudited(env, expired[..|expired| - 1]); }
  }

  lemma OtherKeepsInv(env: Env, s: State, op: Op)
    requires op.OtherEvent? && Legal(op) && Inv(env, s)
    ensures Inv(env, Apply(env, s, op).0)
  {
    if s.audit.Some? {
      var s' := Apply(env, s, op).0;
      AppendKeepsStore(env.hash, s.audit.value, op.execution, op.event, op.payload);
      forall e ensures Accounted(s', e) {
        assert Accounted(s, e);
        AppendCounts(env, s.audit.value, op.execution, op.event, op.payload, e);
      }
    }
  }

  lemma StepKeepsInv(env: Env, s: State, op: Op)
    requires Legal(op) && Inv(env, s)
    ensures Inv(env, Apply(env, s, op).0)
  {
    match op
    case Ask(_, _, _, _, _) => AskKeepsInv(env, s, op);
    case Decide(_, _, _, _, _, _) => DecideKeepsInv(env, s, op);
    case Cancel(_, _) => CancelKeepsInv(env, s, op);
    case Sweep(now) => SweepKeepsInv(env, s, now);
    case OtherEvent(_, _, _) => OtherKeepsInv(env, s, op);
  }

  lemma {:induction false} RunKeepsInv(env: Env, auditing: bool, ops: seq<Op>)
    requires forall op <- ops :: Legal(op)
    ensures Inv(env, After(env, Initial(auditing), ops))
  {
    if ops != [] {
      RunKeepsInv(env, auditing, ops[..|ops| - 1]);
      StepKeepsInv(env, After(env, Initial(auditing), ops[..|ops| - 1]), ops[|ops| - 1]);
    }
  }

  // -- laws ------------------------------------------------------------------

  /** What each status means, in every reachable state. */
  lemma StatusLaws(env: Env, auditing: bool, ops: seq<Op>, r: Request)
    requires (forall op <- ops :: Legal(op)) && r in After(env, Initial(auditing), ops).requests
    ensures var decisions := After(env, Initial(auditing), ops).decisions;
            var approvers := Approvers(decisions, r.execution, r.node);
            var rejected := AnyRejection(decisions, r.execution, r.node);
            && (r.status == Pending ==> |approvers| < r.quorum && !rejected)
            && (r.status == Approved <==> |approvers| >= r.quorum && !rejected)
            && (r.status == Rejected <==> rejected)
            && (r.status == Expired || r.status == Cancelled ==> |approvers| < r.quorum && !rejected)
  {
    RunKeepsInv(env, auditing, ops);
  }

  predicate Capital(word: string) { forall i :: 0 <= i < |word| ==> 'A' <= word[i] <= 'Z' }

  lemma {:induction false} UpperSpells(text: string, word: string)
    requires Capital(word)
    ensures Upper(text) == word <==> Spells(text, word)
  {
    if text != "" && word != "" {
      UpperSpells(text[1..], word[1..]);
      UpperSplits(text, word);
      assert Spells(text, word) <==> Spells(text[..1], word[..1]) && Spells(text[1..], word[1..]) by {
        assert forall i :: 1 <= i < |text| ==> text[i] == text[1..][i - 1];
        assert forall i :: 1 <= i < |word| ==> word[i] == word[1..][i - 1];
      }
    }
  }

  lemma UpperSplits(text: string, word: string)
    requires text != "" && word != "" && Capital(word)
    ensures Upper(text) == word <==> Spells(text[..1], word[..1]) && Upper(text[1..]) == word[1..]
  {
    assert word == [word[0]] + word[1..];
  }

  /** A request that is open at this moment, and is the one a decision finds. */
  predicate OpenAt(s: State, i: nat, execution: string, node: string, now: int) {
    && i < |s.requests| && For(s.requests[i], execution, node)
    && (forall j :: 0 <= j < i ==> !For(s.requests[j], execution, node))
    && s.requests[i].status == Pending && now < s.requests[i].expires
  }

  /** The vote is stored and the request has this status; nothing else changes but the audit. */
  predicate Settles(s: State, s': State, i: nat, d: Decision, status: Status)
    requires i < |s.requests|
  {
    && s'.decisions == s.decisions + [d]
    && s'.requests == s.requests[i := s.requests[i].(status := status)]
  }

  lemma ApproverJoins(decisions: seq<Decision>, d: Decision)
    requires d.vote == Approve
    ensures Approvers(decisions + [d], d.execution, d.node) ==
            (set x | x in decisions && x.execution == d.execution && x.node == d.node && x.vote == Approve :: x.decidedBy) + {d.decidedBy}
    ensures AnyRejection(decisions + [d], d.execution, d.node) == AnyRejection(decisions, d.execution, d.node)
  {
    var more := decisions + [d];
    assert forall x :: x in more <==> x in decisions || x == d;
    assert d in more;
  }

  /** An approving vote on an open request that nobody rejected. */
  lemma ApprovalSettles(env: Env, s: State, op: Op, i: nat)
    requires op.Decide? && OpenAt(s, i, op.execution, op.node, op.now) && Normalized(op.verdict) == Some(Approve)
    requires !AnyRejection(s.decisions, op.execution, op.node)
    ensures var (s', answer) := DecideAt(env, s, op);
            var voters := Approvers(s.decisions, op.execution, op.node) + {op.approver};
            && Settles(s, s', i, Decision(op.execution, op.node, Approve, op.approver, op.now, op.reason),
                       if |voters| >= s.requests[i].quorum then Approved else Pending)
            && answer == Done(s'.requests[i])
  {
    assert i == IndexOf(s.requests, op.execution, op.node);
    ApproverJoins(s.decisions, Decision(op.execution, op.node, Approve, op.approver, op.now, op.reason));
  }

  lemma RejectionSettles(env: Env, s: State, op: Op, i: nat)
    requires op.Decide? && OpenAt(s, i, op.execution, op.node, op.now) && Normalized(op.verdict) == Some(Reject)
    ensures var (s', answer) := DecideAt(env, s, op);
            && Settles(s, s', i, Decision(op.execution, op.node, Reject, op.approver, op.now, op.reason), Rejected)
            && answer == Done(s'.requests[i])
  {
    assert i == IndexOf(s.requests, op.execution, op.node);
    var no := Decision(op.execution, op.node, Reject, op.approver, op.now, op.reason);
    assert no in s.decisions + [no];
  }

  lemma NonsenseIsRefused(env: Env, s: State, op: Op, i: nat)
    requires op.Decide? && OpenAt(s, i, op.execution, op.node, op.now) && Normalized(op.verdict).None?
    ensures DecideAt(env, s, op) == (s, ValueError)
  {
    assert i == IndexOf(s.requests, op.execution, op.node);
  }

  lemma VerdictTexts(verdict: string)
    ensures Normalized(verdict) == Some(Approve) <==> Spells(verdict, "APPROVED")
    ensures Normalized(verdict) == Some(Reject) <==> Spells(verdict, "REJECTED")
  {
    UpperSpells(verdict, "APPROVED");
    UpperSpells(verdict, "REJECTED");
    assert "APPROVED"[0] != "REJECTED"[0];
  }

  /** What the text of a verdict does to an open request, in every reachable state:
      `APPROVED` in any mix of cases is a vote that approves once the distinct approvers
      reach the quorum, `REJECTED` rejects at once, and everything else is refused. */
  lemma VerdictTextDecides(env: Env, auditing: bool, ops: seq<Op>, op: Op, i: nat)
    requires (forall o <- ops :: Legal(o)) && op.Decide?
    requires OpenAt(After(env, Initial(auditing), ops), i, op.execution, op.node, op.now)
    ensures var s := After(env, Initial(auditing), ops);
            var (s', answer) := Apply(env, s, op);
            var voters := (set x | x in s.decisions && x.execution == op.execution && x.node == op.node && x.vote == Approve :: x.decidedBy)
                          + {op.approver};
            if Spells(op.verdict, "APPROVED") then
              Settles(s, s', i, Decision(op.execution, op.node, Approve, op.approver, op.now, op.reason),
                      if |voters| >= s.requests[i].quorum then Approved else Pending) && answer == Done(s'.requests[i])
            else if Spells(op.verdict, "REJECTED") then
              Settles(s, s', i, Decision(op.execution, op.node, Reject, op.approver, op.now, op.reason), Rejected)
              && answer == Done(s'.requests[i])
            else (s', answer) == (s, ValueError)
  {
    var s := After(env, Initial(auditing), ops);
    StatusLaws(env, auditing, ops, s.requests[i]);
    VerdictTexts(op.verdict);
    if Spells(op.verdict, "APPROVED") {
      ApprovalSettles(env, s, op, i);
    } else if Spells(op.verdict, "REJECTED") {
      RejectionSettles(env, s, op, i);
    } else {
      NonsenseIsRefused(env, s, op, i);
    }
  }

  lemma OneRequest(requests: seq<Request>, d: Decision)
    requires UniqueKeys(requests) && InTime(requests, d)
    ensures var i := IndexOf(requests, d.execution, d.node);
            i < |requests| && d.decidedAt < requests[i].expires
  {
    var i :| 0 <= i < |requests| && For(requests[i], d.execution, d.node) && d.decidedAt < requests[i].expires;
    var j := IndexOf(requests, d.execution, d.node);
    assert j <= i;
  }

  /** A new request lasts its time to live, less a fraction of a second. */
  lemma DeadlineIsTtl(s: State, op: Op)
    requires op.Ask? && op.quorum >= 1 && IndexOf(s.requests, op.execution, op.node) == |s.requests|
    ensures var r := AskAt(s, op).1.request;
            && AskAt(s, op).0.requests == s.requests + [r] && r.status == Pending && r.created == op.now
            && op.now + 1000000 * (op.ttl - 1) < r.expires <= op.now + 1000000 * op.ttl
            && r.expires % 1000000 == 0
  {
  }

  ghost predicate Unknown(s: State, execution: string, node: string) {
    forall j :: 0 <= j < |s.requests| ==> !For(s.requests[j], execution, node)
  }

  ghost predicate FoundAt(s: State, i: nat, execution: string, node: string) {
    && i < |s.requests| && For(s.requests[i], execution, node)
    && forall j :: 0 <= j < i ==> !For(s.requests[j], execution, node)
  }

  /** A quorum below one is refused first; a request that exists is returned as it is; else
      the request is stored as asked for, pending. */
  lemma AskExactly(env: Env, s: State, op: Op)
    requires op.Ask?
    ensures op.quorum < 1 ==> Apply(env, s, op) == (s, ValueError)
    ensures forall i: nat :: op.quorum >= 1 && FoundAt(s, i, op.execution, op.node) ==> Apply(env, s, op) == (s, Done(s.requests[i]))
    ensures op.quorum >= 1 && Unknown(s, op.execution, op.node) ==>
              var r := Request(op.execution, op.node, op.quorum, Pending, ToSecond(op.now + 1000000 * op.ttl), op.now);
              Apply(env, s, op) == (s.(requests := s.requests + [r]), Done(r))
  {
    forall i: nat | FoundAt(s, i, op.execution, op.node) ensures IndexOf(s.requests, op.execution, op.node) == i { }
  }

  /** A pending request is cancelled, a settled one is not touched, an unknown one is an
      error. */
  lemma CancelExactly(env: Env, s: State, op: Op)
    requires op.Cancel?
    ensures Unknown(s, op.execution, op.node) ==> Apply(env, s, op) == (s, KeyError)
    ensures forall i: nat :: FoundAt(s, i, op.execution, op.node) ==>
              Apply(env, s, op) ==
              if s.requests[i].status == Pending
              then (s.(requests := s.requests[i := s.requests[i].(status := Cancelled)]), Done(s.requests[i].(status := Cancelled)))
              else (s, Refused(s.requests[i].status))
  {
    forall i: nat | FoundAt(s, i, op.execution, op.node) ensures IndexOf(s.requests, op.execution, op.node) == i { }
  }

  /** The decisions that are not counted: on an unknown request, on a settled one, and
      after the deadline, whatever the verdict says; the last expires the request. */
  lemma DecisionRefused(env: Env, s: State, op: Op)
    requires op.Decide?
    ensures Unknown(s, op.execution, op.node) ==> Apply(env, s, op) == (s, KeyError)
    ensures forall i: nat :: FoundAt(s, i, op.execution, op.node) && s.requests[i].status != Pending ==>
              Apply(env, s, op) == (s, Refused(s.requests[i].status))
    ensures forall i: nat :: FoundAt(s, i, op.execution, op.node) && s.requests[i].status == Pending && s.requests[i].expires <= op.now ==>
              && Apply(env, s, op).1 == Refused(Expired) && Apply(env, s, op).0.decisions == s.decisions
              && Apply(env, s, op).0.requests == s.requests[i := s.requests[i].(status := Expired)]
  {
    forall i: nat | FoundAt(s, i, op.execution, op.node) ensures IndexOf(s.requests, op.execution, op.node) == i { }
  }

  /** Every recorded decision was taken before the deadline of its one request. */
  lemma DecisionsInTime(env: Env, auditing: bool, ops: seq<Op>, d: Decision)
    requires (forall op <- ops :: Legal(op)) && d in After(env, Initial(auditing), ops).decisions
    ensures var requests := After(env, Initial(auditing), ops).requests;
            var i := IndexOf(requests, d.execution, d.node);
            i < |requests| && d.decidedAt < requests[i].expires
  {
    RunKeepsInv(env, auditing, ops);
    OneRequest(After(env, Initial(auditing), ops).requests, d);
  }

  lemma {:induction false} AuditStaysOn(env: Env, ops: seq<Op>)
    ensures After(env, Initial(true), ops).audit.Some?
  {
    if ops != [] {
      var s := After(env, Initial(true), ops[..|ops| - 1]);
      AuditStaysOn(env, ops[..|ops| - 1]);
      var op := ops[|ops| - 1];
      if op.Sweep? { ExpiryCounts(env, s.audit.value, OverdueRequests(s.requests, op.now), ""); }
      if op.Decide? { var i, vote := DecideCases(env, s, op); }
    }
  }

  /** With auditing on, the approval events of every execution are as many as its
      decisions and expiries, on a chain that verifies. */
  lemma AuditLaws(env: Env, ops: seq<Op>, execution: string)
    requires forall op <- ops :: Legal(op)
    ensures var s := After(env, Initial(true), ops);
            && s.audit.Some?
            && ChainOk(env.hash, RowsOf(s.audit.value, execution))
            && ApprovalRows(RowsOf(s.audit.value, execution)) ==
               DecisionsOf(s.decisions, execution) + ExpiredOf(s.requests, execution)
  {
    RunKeepsInv(env, true, ops);
    AuditStaysOn(env, ops);
    assert Accounted(After(env, Initial(true), ops), execution);
  }

  /** How far a state may have moved: requests keep their place and terms, a settled
      one never moves again, and no decision is taken back. */
  predicate Onward(s: State, s': State) {
    && |s.requests| <= |s'.requests|
    && s.decisions <= s'.decisions
    && (forall i :: 0 <= i < |s.requests| ==>
          && s'.requests[i].(status := s.requests[i].status) == s.requests[i]
          && (s.requests[i].status != Pending ==> s'.requests[i] == s.requests[i]))
  }

  lemma StepOnward(env: Env, s: State, op: Op)
    ensures Onward(s, Apply(env, s, op).0)
  {
    match op
    case Ask(_, _, _, _, _) =>
    case Decide(_, _, _, _, _, _) => DecideOnward(env, s, op);
    case Cancel(_, _) =>
    case Sweep(_) =>
    case OtherEvent(_, _, _) =>
  }

  lemma DecideOnward(env: Env, s: State, op: Op)
    requires op.Decide?
    ensures Onward(s, DecideAt(env, s, op).0)
  {
    var i, vote := DecideCases(env, s, op);
    var s' := DecideAt(env, s, op).0;
    if s' != s { SetOnward(s, s', i, s'.requests[i].status); }
  }

  lemma SetOnward(s: State, s': State, i: nat, status: Status)
    requires i < |s.requests| && s.requests[i].status == Pending && s.decisions <= s'.decisions
    requires s'.requests == SetStatus(s, i, status).requests
    ensures Onward(s, s')
  {
  }

  /** Approved, rejected, expired and cancelled are final: no operation sequence, at any
      times, changes such a request or adds a decision to it. */
  lemma {:induction false} TerminalIsFinal(env: Env, s: State, ops: seq<Op>)
    ensures Onward(s, After(env, s, ops))
  {
    if ops != [] {
      TerminalIsFinal(env, s, ops[..|ops| - 1]);
      StepOnward(env, After(env, s, ops[..|ops| - 1]), ops[|ops| - 1]);
    }
  }

  function VotesOn(decisions: seq<Decision>, r: Request): seq<Decision> {
    if decisions == [] then []
    else
      var d := decisions[|decisions| - 1];
      VotesOn(decisions[..|decisions| - 1], r) + (if For(r, d.execution, d.node) then [d] else [])
  }

  /** A settled request is not voted on. */
  lemma {:induction false} SettledIsNotVotedOn(env: Env, s: State, ops: seq<Op>, i: nat)
    requires UniqueKeys(s.requests) && i < |s.requests| && s.requests[i].status != Pending
    ensures VotesOn(After(env, s, ops).decisions, s.requests[i]) == VotesOn(s.decisions, s.requests[i])
    ensures UniqueKeys(After(env, s, ops).requests)
  {
    if ops != [] {
      var s1, op := After(env, s, ops[..|ops| - 1]), ops[|ops| - 1];
      SettledIsNotVotedOn(env, s, ops[..|ops| - 1], i);
      TerminalIsFinal(env, s, ops[..|ops| - 1]);
      StepOnward(env, s1, op);
      VoteIsElsewhere(env, s1, op, i);
    }
  }

  lemma VoteIsElsewhere(env: Env, s: State, op: Op, i: nat)
    requires UniqueKeys(s.requests) && i < |s.requests| && s.requests[i].status != Pending
    ensures VotesOn(Apply(env, s, op).0.decisions, s.requests[i]) == VotesOn(s.decisions, s.requests[i])
    ensures UniqueKeys(Apply(env, s, op).0.requests)
  {
    match op
    case Ask(_, _, _, _, _) =>
    case Decide(_, _, _, _, _, _) => DecideIsElsewhere(env, s, op, i);
    case Cancel(_, _) =>
    case Sweep(_) =>
    case OtherEvent(_, _, _) =>
  }

  lemma DecideIsElsewhere(env: Env, s: State, op: Op, i: nat)
    requires UniqueKeys(s.requests) && i < |s.requests| && s.requests[i].status != Pending && op.Decide?
    ensures VotesOn(DecideAt(env, s, op).0.decisions, s.requests[i]) == VotesOn(s.decisions, s.requests[i])
    ensures UniqueKeys(DecideAt(env, s, op).0.requests)
  {
    var j, vote := DecideCases(env, s, op);
    var s' := DecideAt(env, s, op).0;
    if s'.decisions != s.decisions {
      assert s'.decisions[..|s.decisions|] == s.decisions;
    }
  }

  // -- what the audit events say -------------------------------------------------

  /** One approval event: the decision it records, or the expiry of a request. */
  datatype Note = Note(execution: string, record: Record, decision: Option<Decision>)

  function VoteNote(s: State, op: Op, i: nat, vote: Vote): Note
    requires op.Decide? && i < |s.requests|
  {
    var d := Decision(op.execution, op.node, vote, op.approver, op.now, op.reason);
    Note(op.execution, Record(op.node, Tally(s.decisions + [d], s.requests[i]), op.approver,
                              Given(if op.reason != "" then op.reason else Upper(op.verdict))), Some(d))
  }

  function ExpiryNotes(expired: seq<Request>): seq<Note> {
    if expired == [] then []
    else
      var last := expired[|expired| - 1];
      ExpiryNotes(expired[..|expired| - 1]) + [Note(last.execution, ExpiryRecord(last), None)]
  }

  /** The approval events an operation appends, in order. */
  function Notes(env: Env, s: State, op: Op): seq<Note> {
    match op
    case Decide(_, _, _, _, _, _) =>
      var i, vote := IndexOf(s.requests, op.execution, op.node), Normalized(op.verdict);
      if i == |s.requests| || s.requests[i].status != Pending then []
      else if s.requests[i].expires <= op.now then [Note(op.execution, Record(op.node, Expired, "", BeforeDecision), None)]
      else if vote.None? then []
      else [VoteNote(s, op, i, vote.value)]
    case Sweep(now) => ExpiryNotes(OverdueRequests(s.requests, now))
    case _ => []
  }

  function Log(env: Env, s: State, ops: seq<Op>): seq<Note> {
    if ops == [] then []
    else
      var init := ops[..|ops| - 1];
      Log(env, s, init) + Notes(env, After(env, s, init), ops[|ops| - 1])
  }

  /** The events of one execution as they are written. */
  function Written(env: Env, notes: seq<Note>, execution: string): seq<string> {
    if notes == [] then []
    else
      var last := notes[|notes| - 1];
      Written(env, notes[..|notes| - 1], execution) + (if last.execution == execution then [env.render(last.record)] else [])
  }

  function ApprovalPayloads(rows: seq<Row>): seq<string> {
    if rows == [] then []
    else
      var last := rows[|rows| - 1];
      ApprovalPayloads(rows[..|rows| - 1]) + (if last.event == APPROVAL_DECISION then [last.payload] else [])
  }

  function DecisionsIn(notes: seq<Note>): seq<Decision> {
    if notes == [] then []
    else
      var last := notes[|notes| - 1];
      DecisionsIn(notes[..|notes| - 1]) + (if last.decision.Some? then [last.decision.value] else [])
  }

  lemma {:induction false} WrittenConcat(env: Env, a: seq<Note>, b: seq<Note>, e: string)
    ensures Written(env, a + b, e) == Written(env, a, e) + Written(env, b, e)
    ensures DecisionsIn(a + b) == DecisionsIn(a) + DecisionsIn(b)
    decreases |b|
  {
    if b == [] {
      assert a + b == a;
    } else {
      var n := |b| - 1;
      WrittenConcat(env, a, b[..n], e);
      assert (a + b)[..|a + b| - 1] == a + b[..n];
      assert (a + b)[|a + b| - 1] == b[n];
    }
  }

  lemma AppendPayloads(env: Env, chains: map<string, seq<Row>>, execution: string, event: string, payload: string, e: string)
    ensures ApprovalPayloads(RowsOf(Appended(env.hash, chains, execution, event, payload), e)) ==
            ApprovalPayloads(RowsOf(chains, e)) + (if e == execution && event == APPROVAL_DECISION then [payload] else [])
  {
    var rows := RowsOf(chains, execution);
    var row := NewRow(env.hash, rows, event, payload);
    assert (rows + [row])[..|rows|] == rows;
  }

  lemma OneNote(env: Env, notes: seq<Note>, note: Note, e: string)
    ensures Written(env, notes + [note], e) == Written(env, notes, e) + (if note.execution == e then [env.render(note.record)] else [])
    ensures DecisionsIn(notes + [note]) == DecisionsIn(notes) + (if note.decision.Some? then [note.decision.value] else [])
  {
    assert (notes + [note])[..|notes|] == notes;
  }

  /** One more expiry: one more event. */
  lemma OneExpiry(env: Env, chains: map<string, seq<Row>>, notes: seq<Note>, written: map<string, seq<Row>>, last: Request, e: string)
    requires ApprovalPayloads(RowsOf(written, e)) == ApprovalPayloads(RowsOf(chains, e)) + Written(env, notes, e)
    requires DecisionsIn(notes) == []
    ensures ApprovalPayloads(RowsOf(Appended(env.hash, written, last.execution, APPROVAL_DECISION, env.render(ExpiryRecord(last))), e)) ==
            ApprovalPayloads(RowsOf(chains, e)) + Written(env, notes + [Note(last.execution, ExpiryRecord(last), None)], e)
    ensures DecisionsIn(notes + [Note(last.execution, ExpiryRecord(last), None)]) == []
  {
    var note := Note(last.execution, ExpiryRecord(last), None);
    var one := if e == last.execution then [env.render(note.record)] else [];
    AppendPayloads(env, written, last.execution, APPROVAL_DECISION, env.render(note.record), e);
    OneNote(env, notes, note, e);
    Parts(ApprovalPayloads(RowsOf(chains, e)), Written(env, notes, e), one);
  }

  lemma Parts(a: seq<string>, b: seq<string>, c: seq<string>)
    ensures (a + b) + c == a + (b + c)
  {
  }

  lemma {:induction false} ExpiryPayloads(env: Env, chains: map<string, seq<Row>>, expired: seq<Request>, e: string)
    ensures ExpiryAudited(env, Some(chains), expired).Some?
    ensures ApprovalPayloads(RowsOf(ExpiryAudited(env, Some(chains), expired).value, e)) ==
            ApprovalPayloads(RowsOf(chains, e)) + Written(env, ExpiryNotes(expired), e)
    ensures DecisionsIn(ExpiryNotes(expired)) == []
  {
    if expired != [] {
      var init, last := expired[..|expired| - 1], expired[|expired| - 1];
      ExpiryPayloads(env, chains, init, e);
      OneExpiry(env, chains, ExpiryNotes(init), ExpiryAudited(env, Some(chains), init).value, last, e);
    }
  }

  /** A note by itself. */
  lemma NoteWritten(env: Env, chains: map<string, seq<Row>>, note: Note, e: string)
    ensures ApprovalPayloads(RowsOf(Appended(env.hash, chains, note.execution, APPROVAL_DECISION, env.render(note.record)), e)) ==
            ApprovalPayloads(RowsOf(chains, e)) + Written(env, [note], e)
    ensures DecisionsIn([note]) == if note.decision.Some? then [note.decision.value] else []
  {
    AppendPayloads(env, chains, note.execution, APPROVAL_DECISION, env.render(note.record), e);
    assert [] + [note] == [note];
    OneNote(env, [], note, e);
  }

  /** The step from `s` to `s'` wrote these notes and took these decisions. */
  predicate Wrote(env: Env, s: State, s': State, notes: seq<Note>, e: string) {
    && s.audit.Some? && s'.audit.Some? && s'.decisions == s.decisions + DecisionsIn(notes)
    && ApprovalPayloads(RowsOf(s'.audit.value, e)) == ApprovalPayloads(RowsOf(s.audit.value, e)) + Written(env, notes, e)
  }

  lemma TooLateNotes(env: Env, s: State, op: Op, i: nat, e: string)
    requires op.Decide? && s.audit.Some? && i < |s.requests|
    ensures Wrote(env, s, TooLate(env, s, op, i), [Note(op.execution, Record(op.node, Expired, "", BeforeDecision), None)], e)
  {
    NoteWritten(env, s.audit.value, Note(op.execution, Record(op.node, Expired, "", BeforeDecision), None), e);
  }

  lemma VotedNotes(env: Env, s: State, op: Op, i: nat, vote: Vote, e: string)
    requires op.Decide? && s.audit.Some? && i < |s.requests|
    ensures Wrote(env, s, Voted(env, s, op, i, vote), [VoteNote(s, op, i, vote)], e)
  {
    NoteWritten(env, s.audit.value, VoteNote(s, op, i, vote), e);
  }

  lemma NothingWritten(env: Env, s: State, e: string)
    requires s.audit.Some?
    ensures Wrote(env, s, s, [], e)
  {
  }

  lemma DecideNotes(env: Env, s: State, op: Op, e: string)
    requires op.Decide? && s.audit.Some?
    ensures Wrote(env, s, DecideAt(env, s, op).0, Notes(env, s, op), e)
  {
    var i, vote := IndexOf(s.requests, op.execution, op.node), Normalized(op.verdict);
    if i == |s.requests| || s.requests[i].status != Pending {
      NothingWritten(env, s, e);
    } else if s.requests[i].expires <= op.now {
      TooLateNotes(env, s, op, i, e);
    } else if vote.None? {
      NothingWritten(env, s, e);
    } else {
      VotedNotes(env, s, op, i, vote.value, e);
    }
  }

  lemma StepNotes(env: Env, s: State, op: Op, e: string)
    requires Legal(op) && s.audit.Some?
    ensures Wrote(env, s, Apply(env, s, op).0, Notes(env, s, op), e)
  {
    match op
    case Decide(_, _, _, _, _, _) => DecideNotes(env, s, op, e);
    case Sweep(now) => ExpiryPayloads(env, s.audit.value, OverdueRequests(s.requests, now), e);
    case OtherEvent(execution, event, payload) => AppendPayloads(env, s.audit.value, execution, event, payload, e);
    case Ask(_, _, _, _, _) =>
    case Cancel(_, _) =>
  }

  /** The approval events of an execution are, one for one and in order, the votes and
      expiries of the run; and its votes are, in order, the recorded decisions. */
  lemma {:induction false} AuditTellsAll(env: Env, ops: seq<Op>, e: string)
    requires forall op <- ops :: Legal(op)
    ensures var s := After(env, Initial(true), ops);
            && s.audit.Some? && s.decisions == DecisionsIn(Log(env, Initial(true), ops))
            && ApprovalPayloads(RowsOf(s.audit.value, e)) == Written(env, Log(env, Initial(true), ops), e)
  {
    if ops != [] {
      var init, s := ops[..|ops| - 1], After(env, Initial(true), ops[..|ops| - 1]);
      AuditTellsAll(env, init, e);
      StepNotes(env, s, ops[|ops| - 1], e);
      WrittenConcat(env, Log(env, Initial(true), init), Notes(env, s, ops[|ops| - 1]), e);
    }
  }

  // -- the service -------------------------------------------------------------

  lemma ExpiryStep(env: Env, audit: Option<map<string, seq<Row>>>, expired: seq<Request>, k: nat)
    requires k < |expired|
    ensures ExpiryAudited(env, audit, expired[..k + 1]) ==
            Audited(env, ExpiryAudited(env, audit, expired[..k]), expired[k].execution, ExpiryRecord(expired[k]))
  {
    assert expired[..k + 1][..k] == expired[..k];
  }

  lemma OverdueStep(requests: seq<Request>, now: int, i: nat)
    requires i < |requests|
    ensures OverdueRequests(requests[..i + 1], now) ==
            OverdueRequests(requests[..i], now) + (if Overdue(requests[i], now) then [requests[i].(status := Expired)] else [])
  {
    assert requests[..i + 1][..i] == requests[..i];
  }

  class ApprovalService {
    const env: Env
    const audit: AuditStore?
    var requests: seq<Request>
    var decisions: seq<Decision>

    constructor (env: Env, audit: AuditStore?)
      requires audit != null ==> audit.d == env.hash
      ensures this.env == env && this.audit == audit && requests == [] && decisions == []
    {
      this.env := env;
      this.audit := audit;
      requests, decisions := [], [];
    }

    ghost predicate Valid()
      reads this
    {
      audit != null ==> audit.d == env.hash
    }

    function Snapshot(): State
      reads this, audit
    {
      State(requests, decisions, if audit == null then None else Some(audit.chains))
    }

    /** `_audit(...).approval(...)`, when auditing is on. */
    method Log(execution: string, record: Record)
      requires Valid()
      modifies audit
      ensures Snapshot() == old(Snapshot()).(audit := Audited(env, old(Snapshot()).audit, execution, record))
    {
      if audit != null {
        var row := audit.Append(execution, APPROVAL_DECISION, env.render(record));
      }
    }

    method MakeRequest(execution: string, node: string, quorum: int, ttl: int, now: int) returns (r: Outcome)
      requires Valid()
      modifies this
      ensures (Snapshot(), r) == Apply(env, old(Snapshot()), Ask(execution, node, quorum, ttl, now))
    {
      if quorum < 1 { return ValueError; }
      var i := IndexOf(requests, execution, node);
      if i < |requests| { return Done(requests[i]); }
      var request := Request(execution, node, quorum, Pending, ToSecond(now + 1000000 * ttl), now);
      requests := requests + [request];
      r := Done(request);
    }

    method MakeDecision(execution: string, node: string, approver: string, verdict: string, reason: string, now: int)
      returns (r: Outcome)
      requires Valid()
      modifies this, audit
      ensures (Snapshot(), r) == Apply(env, old(Snapshot()), Decide(execution, node, approver, verdict, reason, now))
    {
      var i := IndexOf(requests, execution, node);
      if i == |requests| { return KeyError; }
      if requests[i].status != Pending { return Refused(requests[i].status); }
      if requests[i].expires <= now {
        requests := requests[i := requests[i].(status := Expired)];
        Log(execution, Record(node, Expired, "", BeforeDecision));
        return Refused(Expired);
      }
      var vote := Normalized(verdict);
      if vote.None? { return ValueError; }
      CastVote(i, execution, node, approver, verdict, vote.value, reason, now);
      r := Done(requests[i]);
    }

    /** Insert the decision, count, and settle the request. */
    method CastVote(i: nat, execution: string, node: string, approver: string, verdict: string, vote: Vote, reason: string, now: int)
      requires Valid() && i < |requests|
      modifies this, audit
      ensures Snapshot() == Voted(env, old(Snapshot()), Decide(execution, node, approver, verdict, reason, now), i, vote)
    {
      decisions := decisions + [Decision(execution, node, vote, approver, now, reason)];
      var status := Tally(decisions, requests[i]);
      requests := requests[i := requests[i].(status := status)];
      Log(execution, Record(node, status, approver, Given(if reason != "" then reason else Upper(verdict))));
    }

    method CancelRequest(execution: string, node: string) returns (r: Outcome)
      requires Valid()
      modifies this
      ensures (Snapshot(), r) == Apply(env, old(Snapshot()), Cancel(execution, node))
    {
      var i := IndexOf(requests, execution, node);
      if i == |requests| { return KeyError; }
      if requests[i].status != Pending { return Refused(requests[i].status); }
      requests := requests[i := requests[i].(status := Cancelled)];
      r := Done(requests[i]);
    }

    /** The first loop of `sweep_expired`: mark the overdue requests. */
    method MarkOverdue(now: int) returns (expired: seq<Request>)
      modifies this`requests
      ensures requests == SweptRequests(old(requests), now) && expired == OverdueRequests(old(requests), now)
    {
      ghost var before, swept := requests, SweptRequests(requests, now);
      expired := [];
      var i := 0;
      while i < |requests|
        invariant 0 <= i <= |requests| == |before|
        invariant forall j :: 0 <= j < i ==> requests[j] == swept[j]
        invariant forall j :: i <= j < |before| ==> requests[j] == before[j]
        invariant expired == OverdueRequests(before[..i], now)
      {
        OverdueStep(before, now, i);
        if Overdue(requests[i], now) {
          requests := requests[i := requests[i].(status := Expired)];
          expired := expired + [requests[i]];
        }
        i := i + 1;
      }
      assert before[..i] == before;
    }

    /** The second loop: one audit record for each. */
    method LogExpiries(expired: seq<Request>)
      requires Valid()
      modifies audit
      ensures Snapshot() == old(Snapshot()).(audit := ExpiryAudited(env, old(Snapshot()).audit, expired))
    {
      if audit == null {
        NothingAudited(env, expired);
        return;
      }
      ghost var before := Some(audit.chains);
      var k := 0;
      while k < |expired|
        invariant 0 <= k <= |expired|
        invariant Some(audit.chains) == ExpiryAudited(env, before, expired[..k])
      {
        ExpiryStep(env, before, expired, k);
        var row := audit.Append(expired[k].execution, APPROVAL_DECISION, env.render(ExpiryRecord(expired[k])));
        k := k + 1;
      }
      assert expired[..k] == expired;
    }

    method SweepExpired(now: int) returns (r: Outcome)
      requires Valid()
      modifies this, audit
      ensures (Snapshot(), r) == Apply(env, old(Snapshot()), Sweep(now))
    {
      var expired := MarkOverdue(now);
      LogExpiries(expired);
      r := Swept(expired);
    }
  }
}
