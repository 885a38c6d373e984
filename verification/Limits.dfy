/** Rate limiting (src/app/limits.py): a continuously refilled token bucket, and a
    limiter that keeps one bucket per client and forgets old ones.  Times and tokens
    are real numbers. */
module Limits {

  function Min(x: real, y: real): real { if x <= y then x else y }

  function Max(x: real, y: real): real { if x >= y then x else y }

  datatype Bucket = Bucket(capacity: real, rate: real, tokens: real, updated: real)

  predicate Sane(b: Bucket) { b.rate > 0.0 && b.tokens <= b.capacity }

  function NewBucket(capacity: real, rate: real): Bucket { Bucket(capacity, rate, capacity, 0.0) }

  /** The tokens a bucket holds at a moment. */
  function Level(b: Bucket, now: real): real {
    Min(b.capacity, b.tokens + Max(0.0, now - b.updated) * b.rate)
  }

  datatype Answer = Allowed | Denied(retryAfter: real)

  function Answers(b: Bucket, now: real): Answer
    requires b.rate > 0.0
  {
    if Level(b, now) >= 1.0 then Allowed else Denied((1.0 - Level(b, now)) / b.rate)
  }

  function Taken(b: Bucket, now: real): Bucket {
    var level := Level(b, now);
    b.(tokens := if level >= 1.0 then level - 1.0 else level, updated := now)
  }

  function Refunded(b: Bucket, amount: real): Bucket { b.(tokens := Min(b.capacity, b.tokens + amount)) }

  predicate Idle(b: Bucket) { b.tokens >= b.capacity }

  class TokenBucket {
    const capacity: real
    const rate: real
    var tokens: real
    var updated: real

    function Value(): Bucket
      reads this
    {
      Bucket(capacity, rate, tokens, updated)
    }

    constructor (capacity: real, rate: real)
      ensures Value() == NewBucket(capacity, rate)
    {
      this.capacity, this.rate, tokens, updated := capacity, rate, capacity, 0.0;
    }

    method Take(now: real) returns (answer: Answer)
      requires rate > 0.0
      modifies this
      ensures answer == Answers(old(Value()), now) && Value() == Taken(old(Value()), now)
    {
      var elapsed := Max(0.0, now - updated);
      tokens := Min(capacity, tokens + elapsed * rate);
      updated := now;
      if tokens >= 1.0 {
        tokens := tokens - 1.0;
        return Allowed;
      }
      answer := Denied((1.0 - tokens) / rate);
    }

    method Refund(amount: real)
      modifies this
      ensures Value() == Refunded(old(Value()), amount)
    {
      tokens := Min(capacity, tokens + amount);
    }
  }

  /** A refund gives back exactly what an admission took. */
  lemma RefundUndoesTake(b: Bucket, now: real)
    requires b.capacity >= 1.0 && Level(b, now) >= 1.0
    ensures Refunded(Taken(b, now), 1.0) == b.(tokens := Level(b, now), updated := now)
  {
  }

  /** After a refund of one token the next take is admitted, whenever it comes. */
  lemma RefundAdmits(b: Bucket, now: real)
    requires b.capacity >= 1.0 && b.tokens >= 0.0 && b.rate > 0.0
    ensures Answers(Refunded(b, 1.0), now) == Allowed
  {
    assert Max(0.0, now - b.updated) * b.rate >= 0.0;
  }

  // -- how much gets through a window ------------------------------------------

  datatype Act = Try(now: real) | Return(amount: real)

  function Done(b: Bucket, act: Act): Bucket {
    match act
    case Try(now) => Taken(b, now)
    case Return(amount) => Refunded(b, amount)
  }

  function End(b: Bucket, acts: seq<Act>): Bucket {
    if acts == [] then b else Done(End(b, acts[..|acts| - 1]), acts[|acts| - 1])
  }

  function Admitted(b: Bucket, acts: seq<Act>): real {
    if acts == [] then 0.0
    else
      var init, last := acts[..|acts| - 1], acts[|acts| - 1];
      Admitted(b, init) + (if last.Try? && Level(End(b, init), last.now) >= 1.0 then 1.0 else 0.0)
  }

  function GivenBack(acts: seq<Act>): real {
    if acts == [] then 0.0
    else GivenBack(acts[..|acts| - 1]) + (if acts[|acts| - 1].Return? then acts[|acts| - 1].amount else 0.0)
  }

  /** The clock after some acts that began at `start`. */
  function Clock(acts: seq<Act>, start: real): real {
    if acts == [] then start
    else if acts[|acts| - 1].Try? then acts[|acts| - 1].now
    else Clock(acts[..|acts| - 1], start)
  }

  /** A clock that never runs back, and refunds that give something back. */
  predicate Ordered(acts: seq<Act>, start: real) {
    acts == [] ||
    (var init, last := acts[..|acts| - 1], acts[|acts| - 1];
     Ordered(init, start) && (if last.Try? then Clock(init, start) <= last.now else last.amount >= 0.0))
  }

  lemma Product(rate: real, x: real, y: real)
    requires rate > 0.0 && x <= y
    ensures rate * x <= rate * y && x * rate <= y * rate
  {
  }

  lemma MinGrows(c: real, x: real, y: real, d: real)
    requires y <= x + d && 0.0 <= d
    ensures Min(c, y) <= Min(c, x) + d
  {
  }

  lemma Spread(rate: real, x: real, y: real, d: real)
    requires rate > 0.0 && y <= x + d && 0.0 <= d
    ensures y * rate <= x * rate + rate * d && 0.0 <= rate * d
  {
    Product(rate, y, x + d);
    Product(rate, 0.0, d);
    assert (x + d) * rate == x * rate + rate * d;
  }

  lemma LevelLater(b: Bucket, s: real, t: real)
    requires b.rate > 0.0 && s <= t
    ensures Level(b, t) <= Level(b, s) + b.rate * (t - s)
  {
    var x, y := Max(0.0, s - b.updated), Max(0.0, t - b.updated);
    Spread(b.rate, x, y, t - s);
    MinGrows(b.capacity, b.tokens + x * b.rate, b.tokens + y * b.rate, b.rate * (t - s));
  }

  /** What is left right after a take. */
  lemma LevelAtTake(b: Bucket, t: real)
    ensures Level(Taken(b, t), t) == if Level(b, t) >= 1.0 then Level(b, t) - 1.0 else Level(b, t)
  {
    var after := Taken(b, t);
    Nothing(after.rate);
    assert Level(after, t) == Min(after.capacity, after.tokens);
  }

  lemma Nothing(rate: real)
    ensures Max(0.0, 0.0) * rate == 0.0
  {
  }

  lemma TryStep(b: Bucket, s: real, t: real) returns (one: real, more: real)
    requires b.rate > 0.0 && s <= t
    ensures one == if Level(b, t) >= 1.0 then 1.0 else 0.0
    ensures more == Earned(b.rate, s, t) && Level(Taken(b, t), t) + one <= Level(b, s) + more
  {
    LevelLater(b, s, t);
    LevelAtTake(b, t);
    one, more := if Level(b, t) >= 1.0 then 1.0 else 0.0, Earned(b.rate, s, t);
  }

  lemma RefundStep(b: Bucket, amount: real, t: real)
    requires amount >= 0.0
    ensures Level(Refunded(b, amount), t) <= Level(b, t) + amount
  {
  }

  lemma Distribute(rate: real, a: real, b: real, c: real)
    ensures rate * (c - a) == rate * (c - b) + rate * (b - a)
  {
  }

  lemma LevelNonnegative(b: Bucket, t: real)
    requires Sane(b) && 0.0 <= b.tokens
    ensures 0.0 <= Level(b, t)
  {
    Product(b.rate, 0.0, Max(0.0, t - b.updated));
  }

  lemma {:induction false} EndKeeps(b: Bucket, acts: seq<Act>, start: real)
    requires Sane(b) && Ordered(acts, start)
    ensures Sane(End(b, acts)) && End(b, acts).rate == b.rate && End(b, acts).capacity == b.capacity
    ensures 0.0 <= b.tokens ==> 0.0 <= End(b, acts).tokens
  {
    if acts != [] {
      var init, last := acts[..|acts| - 1], acts[|acts| - 1];
      EndKeeps(b, init, start);
      var mid := End(b, init);
      if last.Try? { Product(mid.rate, 0.0, Max(0.0, last.now - mid.updated)); }
    }
  }

  /** What is left at the end of some acts. */
  function Left(b: Bucket, acts: seq<Act>, start: real): real { Level(End(b, acts), Clock(acts, start)) }

  function Earned(rate: real, from: real, to: real): real { rate * (to - from) }

  /** What got through, less what was given back, plus what is left, came from what was
      there and from the refill. */
  predicate Balanced(admitted: real, given: real, left: real, there: real, earned: real) {
    admitted - given + left <= there + earned
  }

  lemma BalanceTry(admitted: real, one: real, given: real, left: real, left': real, there: real,
                   earned: real, more: real, earned': real)
    requires Balanced(admitted, given, left, there, earned)
    requires left' + one <= left + more && earned' == earned + more
    ensures Balanced(admitted + one, given, left', there, earned')
  {
  }

  lemma BalanceReturn(admitted: real, given: real, amount: real, left: real, left': real, there: real, earned: real)
    requires Balanced(admitted, given, left, there, earned) && left' <= left + amount
    ensures Balanced(admitted, given + amount, left', there, earned)
  {
  }

  /** Tokens are conserved over every run. */
  lemma {:induction false} Conserved(b: Bucket, acts: seq<Act>, start: real)
    requires Sane(b) && Ordered(acts, start)
    ensures start <= Clock(acts, start)
    ensures Balanced(Admitted(b, acts), GivenBack(acts), Left(b, acts, start), Level(b, start),
                     Earned(b.rate, start, Clock(acts, start)))
  {
    if acts != [] {
      var init, last := acts[..|acts| - 1], acts[|acts| - 1];
      Conserved(b, init, start);
      EndKeeps(b, init, start);
      var s := Clock(init, start);
      if last.Try? {
        Distribute(b.rate, start, s, last.now);
        ConservedTry(b, acts, start, Level(b, start), Earned(b.rate, start, s), Earned(b.rate, start, last.now));
      } else {
        ConservedReturn(b, acts, start, Level(b, start), Earned(b.rate, start, s));
      }
    }
  }

  lemma ConservedTry(b: Bucket, acts: seq<Act>, start: real, there: real, earned: real, earned': real)
    requires Ordered(acts, start) && acts != [] && acts[|acts| - 1].Try?
    requires var init, t := acts[..|acts| - 1], acts[|acts| - 1].now;
             && End(b, init).rate == b.rate > 0.0
             && Balanced(Admitted(b, init), GivenBack(init), Left(b, init, start), there, earned)
             && earned' == earned + Earned(b.rate, Clock(init, start), t)
    ensures Balanced(Admitted(b, acts), GivenBack(acts), Left(b, acts, start), there, earned')
  {
    var init, t := acts[..|acts| - 1], acts[|acts| - 1].now;
    var mid, s := End(b, init), Clock(init, start);
    var one, more := TryStep(mid, s, t);
    BalanceTry(Admitted(b, init), one, GivenBack(init), Left(b, init, start), Left(b, acts, start), there, earned, more, earned');
  }

  lemma ConservedReturn(b: Bucket, acts: seq<Act>, start: real, there: real, earned: real)
    requires Ordered(acts, start) && acts != [] && acts[|acts| - 1].Return?
    requires var init := acts[..|acts| - 1];
             Balanced(Admitted(b, init), GivenBack(init), Left(b, init, start), there, earned)
    ensures Balanced(Admitted(b, acts), GivenBack(acts), Left(b, acts, start), there, earned)
  {
    var init, amount := acts[..|acts| - 1], acts[|acts| - 1].amount;
    RefundStep(End(b, init), amount, Clock(init, start));
    BalanceReturn(Admitted(b, init), GivenBack(init), amount, Left(b, init, start), Left(b, acts, start), there, earned);
  }

  lemma EarnedLater(rate: real, start: real, t: real, stop: real)
    requires rate > 0.0 && t <= stop
    ensures Earned(rate, start, t) <= Earned(rate, start, stop)
  {
    Product(rate, t - start, stop - start);
  }

  lemma AtMost(b: Bucket, acts: seq<Act>, start: real, most: real)
    requires Sane(b) && 0.0 <= b.tokens && Ordered(acts, start)
    requires Earned(b.rate, start, Clock(acts, start)) <= most
    ensures Admitted(b, acts) - GivenBack(acts) <= b.capacity + most
  {
    Conserved(b, acts, start);
    EndKeeps(b, acts, start);
    LevelNonnegative(End(b, acts), Clock(acts, start));
    Settle(Admitted(b, acts), GivenBack(acts), Left(b, acts, start), Level(b, start), b.capacity,
           Earned(b.rate, start, Clock(acts, start)), most);
  }

  /** In any window, admitted minus refunded is at most the capacity plus what the rate
      allows over the window, whatever happened before it. */
  lemma WindowBound(b: Bucket, acts: seq<Act>, start: real, stop: real)
    requires Sane(b) && 0.0 <= b.tokens && Ordered(acts, start) && Clock(acts, start) <= stop
    ensures Admitted(b, acts) - GivenBack(acts) <= b.capacity + Earned(b.rate, start, stop)
  {
    EarnedLater(b.rate, start, Clock(acts, start), stop);
    AtMost(b, acts, start, Earned(b.rate, start, stop));
  }

  lemma Settle(admitted: real, given: real, left: real, there: real, capacity: real, earned: real, most: real)
    requires Balanced(admitted, given, left, there, earned) && 0.0 <= left && there <= capacity && earned <= most
    ensures admitted - given <= capacity + most
  {
  }

  // -- when a denied client may come back --------------------------------------

  /** When a bucket below one token will have refilled to one. */
  function DueAt(b: Bucket): real
    requires b.rate > 0.0
  {
    b.updated + (1.0 - b.tokens) / b.rate
  }

  lemma LevelMeetsDue(b: Bucket, t: real)
    requires Sane(b) && b.tokens < 1.0 && b.capacity >= 1.0 && b.updated <= t
    ensures Level(b, t) >= 1.0 <==> t >= DueAt(b)
    ensures t < DueAt(b) ==> Level(b, t) == b.tokens + (t - b.updated) * b.rate
  {
    var need := (1.0 - b.tokens) / b.rate;
    assert need * b.rate == 1.0 - b.tokens;
    if t - b.updated >= need { Product(b.rate, need, t - b.updated); }
    else { assert (t - b.updated) * b.rate < need * b.rate; }
  }

  /** A denied try moves nothing: the bucket is due at the same moment as before. */
  lemma DeniedKeepsDue(b: Bucket, t: real)
    requires Sane(b) && b.tokens < 1.0 && b.capacity >= 1.0 && b.updated <= t < DueAt(b)
    ensures Answers(b, t).Denied? && DueAt(Taken(b, t)) == DueAt(b)
    ensures t + Answers(b, t).retryAfter == DueAt(b)
  {
    LevelMeetsDue(b, t);
    var e, need := t - b.updated, (1.0 - b.tokens) / b.rate;
    assert 1.0 - (b.tokens + e * b.rate) == (need - e) * b.rate by { assert need * b.rate == 1.0 - b.tokens; }
    assert (need - e) * b.rate / b.rate == need - e;
  }

  predicate Rising(from: real, times: seq<real>)
    decreases times
  {
    times == [] || (from <= times[0] && Rising(times[0], times[1..]))
  }

  function LastOf(from: real, times: seq<real>): real
    decreases times
  {
    if times == [] then from else LastOf(times[0], times[1..])
  }

  function Tried(b: Bucket, times: seq<real>): (r: Bucket)
    ensures r.rate == b.rate
    decreases times
  {
    if times == [] then b else Tried(Taken(b, times[0]), times[1..])
  }

  predicate AllDenied(b: Bucket, times: seq<real>)
    requires b.rate > 0.0
    decreases times
  {
    times == [] || (Answers(b, times[0]).Denied? && AllDenied(Taken(b, times[0]), times[1..]))
  }

  lemma {:induction false} TriesKeepDue(b: Bucket, times: seq<real>)
    requires Sane(b) && b.tokens < 1.0 && b.capacity >= 1.0 && Rising(b.updated, times)
    requires LastOf(b.updated, times) < DueAt(b)
    ensures AllDenied(b, times)
    ensures var b' := Tried(b, times);
            && Sane(b') && b'.tokens < 1.0 && b'.capacity == b.capacity && b'.rate == b.rate
            && DueAt(b') == DueAt(b) && b'.updated == LastOf(b.updated, times)
    decreases times
  {
    if times != [] {
      LastIsLast(times[0], times[1..]);
      DeniedKeepsDue(b, times[0]);
      TriesKeepDue(Taken(b, times[0]), times[1..]);
    }
  }

  lemma {:induction false} LastIsLast(from: real, times: seq<real>)
    requires Rising(from, times)
    ensures from <= LastOf(from, times)
    decreases times
  {
    if times != [] { LastIsLast(times[0], times[1..]); }
  }

  /** After a denial with a wait, further tries before the time is up are denied and do
      not push it back, and the next take succeeds exactly from that time on. */
  lemma RetryAfterIsExact(b: Bucket, t: real, times: seq<real>, again: real)
    requires Sane(b) && b.capacity >= 1.0 && Answers(b, t).Denied?
    requires Rising(t, times) && LastOf(t, times) < t + Answers(b, t).retryAfter && LastOf(t, times) <= again
    ensures AllDenied(Taken(b, t), times)
    ensures Answers(Tried(Taken(b, t), times), again).Allowed? <==> again >= t + Answers(b, t).retryAfter
  {
    var denied := Taken(b, t);
    assert DueAt(denied) == t + Answers(b, t).retryAfter;
    TriesKeepDue(denied, times);
    LevelMeetsDue(Tried(denied, times), again);
  }

  /** With a capacity below one the announced wait is never enough. */
  lemma SmallCapacityNeverAdmits(b: Bucket, t: real)
    requires Sane(b) && b.capacity < 1.0
    ensures Answers(b, t).Denied?
  {
  }
}
