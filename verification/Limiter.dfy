/** The rate limiter of src/app/limits.py: one bucket per key, in order of first use,
    and never more than `max_keys` of them. */
module Limiter {
  import opened Common
  import opened Limits

  datatype Limiter = Limiter(burst: int, rate: real, maxKeys: int, order: seq<string>, buckets: map<string, Bucket>)

  function New(burst: int, rate: real, maxKeys: int): Limiter { Limiter(burst, rate, maxKeys, [], map[]) }

  predicate Fits(l: Limiter, b: Bucket) {
    b.capacity == l.burst as real && b.rate == l.rate && b.tokens <= b.capacity && (l.burst < 1 ==> Idle(b))
  }

  ghost predicate Valid(l: Limiter) {
    && l.rate > 0.0
    && NoRepeats(l.order)
    && (forall k :: k in l.order <==> k in l.buckets)
    && (forall k <- l.buckets :: Fits(l, l.buckets[k]))
  }

  // -- operations ------------------------------------------------------------

  /** The keys whose buckets are not idle. */
  function Active(keys: seq<string>, buckets: map<string, Bucket>): (r: seq<string>)
    ensures |r| <= |keys|
    ensures forall k :: k in r <==> k in keys && !(k in buckets && Idle(buckets[k]))
  {
    if keys == [] then []
    else
      var last := keys[|keys| - 1];
      assert keys == keys[..|keys| - 1] + [last];
      Active(keys[..|keys| - 1], buckets) + (if last in buckets && Idle(buckets[last]) then [] else [last])
  }

  /** How many keys the slice `[:n]` of a list takes, as Python counts. */
  function SliceLength(length: nat, n: int): (r: nat)
    ensures r <= length
  {
    if n >= 0 then (if n <= length then n else length) else if length + n >= 0 then length + n else 0
  }

  function Keep(l: Limiter, keys: seq<string>): Limiter {
    l.(order := keys, buckets := map k | k in l.buckets && k in keys :: l.buckets[k])
  }

  function WithoutIdle(l: Limiter): Limiter { Keep(l, Active(l.order, l.buckets)) }

  /** `_prune`: drop the idle buckets; if that was not enough, the oldest half. */
  function Prune(l: Limiter): Limiter {
    var active := WithoutIdle(l);
    if |active.order| >= l.maxKeys then Keep(active, active.order[SliceLength(|active.order|, l.maxKeys / 2)..]) else active
  }

  function Room(l: Limiter): Limiter { if |l.order| >= l.maxKeys then Prune(l) else l }

  function Touch(l: Limiter, key: string): Limiter {
    if key in l.buckets then l
    else
      var room := Room(l);
      room.(order := room.order + [key], buckets := room.buckets[key := NewBucket(l.burst as real, l.rate)])
  }

  datatype Op = Check(key: string, now: real) | Refund(key: string)

  function Apply(l: Limiter, op: Op): Limiter {
    match op
    case Check(key, now) =>
      var touched := Touch(l, key);
      touched.(buckets := touched.buckets[key := Taken(touched.buckets[key], now)])
    case Refund(key) =>
      if key in l.buckets then l.(buckets := l.buckets[key := Refunded(l.buckets[key], 1.0)]) else l
  }

  function Reply(l: Limiter, op: Op): Answer
    requires Valid(l)
  {
    match op
    case Check(key, now) => if key in l.buckets then Answers(l.buckets[key], now) else Answers(NewBucket(l.burst as real, l.rate), now)
    case Refund(_) => Allowed
  }

  function After(l: Limiter, ops: seq<Op>): Limiter {
    if ops == [] then l else Apply(After(l, ops[..|ops| - 1]), ops[|ops| - 1])
  }

  // -- invariant ---------------------------------------------------------------

  lemma TakenFits(l: Limiter, b: Bucket, now: real)
    requires Fits(l, b) && l.rate > 0.0
    ensures Fits(l, Taken(b, now)) && (l.burst >= 1 && Idle(b) ==> !Idle(Taken(b, now)))
  {
    Product(b.rate, 0.0, Max(0.0, now - b.updated));
  }

  lemma {:induction false} ActiveNoRepeats(keys: seq<string>, buckets: map<string, Bucket>)
    requires NoRepeats(keys)
    ensures NoRepeats(Active(keys, buckets))
  {
    if keys != [] { ActiveNoRepeats(keys[..|keys| - 1], buckets); }
  }

  lemma KeepValid(l: Limiter, keys: seq<string>)
    requires Valid(l) && NoRepeats(keys) && forall k <- keys :: k in l.order
    ensures Valid(Keep(l, keys))
  {
  }

  lemma PruneValid(l: Limiter)
    requires Valid(l)
    ensures Valid(WithoutIdle(l)) && Valid(Prune(l))
  {
    var keys := Active(l.order, l.buckets);
    ActiveNoRepeats(l.order, l.buckets);
    KeepValid(l, keys);
    var active := WithoutIdle(l);
    var rest := active.order[SliceLength(|active.order|, l.maxKeys / 2)..];
    assert forall k <- rest :: k in active.order;
    KeepValid(active, rest);
  }

  lemma TouchValid(l: Limiter, key: string)
    requires Valid(l)
    ensures Valid(Touch(l, key)) && key in Touch(l, key).buckets
  {
    PruneValid(l);
  }

  lemma UpdateValid(l: Limiter, key: string, b: Bucket)
    requires Valid(l) && key in l.buckets && Fits(l, b)
    ensures Valid(l.(buckets := l.buckets[key := b]))
  {
  }

  lemma StepValid(l: Limiter, op: Op)
    requires Valid(l)
    ensures Valid(Apply(l, op))
  {
    match op
    case Check(key, now) =>
      TouchValid(l, key);
      var touched := Touch(l, key);
      TakenFits(touched, touched.buckets[key], now);
      UpdateValid(touched, key, Taken(touched.buckets[key], now));
    case Refund(key) =>
      if key in l.buckets { UpdateValid(l, key, Refunded(l.buckets[key], 1.0)); }
  }

  lemma {:induction false} RunValid(l: Limiter, ops: seq<Op>)
    requires Valid(l)
    ensures Valid(After(l, ops))
    ensures After(l, ops).maxKeys == l.maxKeys && After(l, ops).burst == l.burst && After(l, ops).rate == l.rate
  {
    if ops != [] {
      RunValid(l, ops[..|ops| - 1]);
      StepValid(After(l, ops[..|ops| - 1]), ops[|ops| - 1]);
    }
  }

  // -- who is forgotten ----------------------------------------------------------

  predicate Busy(l: Limiter, p: nat)
    requires p < |l.order|
  {
    l.order[p] in l.buckets && l.buckets[l.order[p]].tokens < l.buckets[l.order[p]].capacity
  }

  /** How many of the first `n` keys are busy. */
  function BusyBefore(l: Limiter, n: nat): nat
    requires n <= |l.order|
  {
    if n == 0 then 0 else BusyBefore(l, n - 1) + (if Busy(l, n - 1) then 1 else 0)
  }

  function BusyKeys(l: Limiter, n: nat): seq<string>
    requires n <= |l.order|
  {
    if n == 0 then [] else BusyKeys(l, n - 1) + (if Busy(l, n - 1) then [l.order[n - 1]] else [])
  }

  lemma {:induction false} BusyAreActive(l: Limiter, n: nat)
    requires n <= |l.order| && forall k <- l.order :: k in l.buckets
    ensures Active(l.order[..n], l.buckets) == BusyKeys(l, n)
  {
    if n > 0 {
      BusyAreActive(l, n - 1);
      assert l.order[..n][..n - 1] == l.order[..n - 1];
      assert l.order[..n][n - 1] == l.order[n - 1];
    }
  }

  lemma {:induction false} BusyCount(l: Limiter, n: nat)
    requires n <= |l.order|
    ensures |BusyKeys(l, n)| == BusyBefore(l, n)
  {
    if n > 0 { BusyCount(l, n - 1); }
  }

  /** The place of a busy key among the busy ones. */
  lemma {:induction false} BusyPlace(l: Limiter, n: nat, p: nat)
    requires p < n <= |l.order| && Busy(l, p)
    ensures BusyBefore(l, p) < |BusyKeys(l, n)| && BusyKeys(l, n)[BusyBefore(l, p)] == l.order[p]
    decreases n
  {
    if p < n - 1 { BusyPlace(l, n - 1, p); } else { BusyCount(l, p); }
  }

  /** In a list without repeats, what a suffix holds. */
  lemma SuffixHolds(xs: seq<string>, i: nat, c: nat)
    requires NoRepeats(xs) && i < |xs| && c <= |xs|
    ensures xs[i] in xs[c..] <==> i >= c
  {
    if i >= c { assert xs[c..][i - c] == xs[i]; }
    if xs[i] in xs[c..] {
      var j :| 0 <= j < |xs[c..]| && xs[c..][j] == xs[i];
      assert xs[c + j] == xs[i];
    }
  }

  /** How many of the busy keys are forgotten: none while they are fewer than `max_keys`,
      and else half of `max_keys`. */
  function Forgotten(busy: nat, maxKeys: int): nat {
    if busy < maxKeys then 0
    else if maxKeys >= 0 then maxKeys / 2
    else if busy + maxKeys / 2 >= 0 then busy + maxKeys / 2 else 0
  }

  /** Pruning keeps exactly the busy keys, but for the oldest of them when they are too
      many; their buckets stay as they are. */
  lemma PruneExactly(l: Limiter, p: nat)
    requires Valid(l) && p < |l.order|
    ensures var busy := BusyBefore(l, |l.order|);
            && (l.order[p] in Prune(l).buckets <==> Busy(l, p) && BusyBefore(l, p) >= Forgotten(busy, l.maxKeys))
            && (l.order[p] in Prune(l).buckets ==> Prune(l).buckets[l.order[p]] == l.buckets[l.order[p]])
  {
    var n, active := |l.order|, Active(l.order, l.buckets);
    assert l.order[..n] == l.order;
    BusyAreActive(l, n);
    BusyCount(l, n);
    ActiveNoRepeats(l.order, l.buckets);
    var cut := if |active| >= l.maxKeys then SliceLength(|active|, l.maxKeys / 2) else 0;
    assert cut == Forgotten(|active|, l.maxKeys);
    assert active[0..] == active;
    if Busy(l, p) {
      BusyPlace(l, n, p);
      SuffixHolds(active, BusyBefore(l, p), cut);
    }
    assert l.order[p] in active[cut..] ==> l.order[p] in active;
  }

  // -- how many keys -----------------------------------------------------------

  predicate Bounds(burst: int, maxKeys: int) { maxKeys >= 2 || (maxKeys == 1 && burst < 1) }

  lemma {:induction false} AllIdle(keys: seq<string>, buckets: map<string, Bucket>)
    requires forall k <- keys :: k in buckets && Idle(buckets[k])
    ensures Active(keys, buckets) == []
  {
    if keys != [] { AllIdle(keys[..|keys| - 1], buckets); }
  }

  lemma RoomForOne(l: Limiter)
    requires Valid(l) && Bounds(l.burst, l.maxKeys) && |l.order| <= l.maxKeys
    ensures |Room(l).order| < l.maxKeys
  {
    if l.burst < 1 { AllIdle(l.order, l.buckets); }
  }

  lemma {:induction false} TrackedBound(burst: int, rate: real, maxKeys: int, ops: seq<Op>)
    requires rate > 0.0 && Bounds(burst, maxKeys)
    ensures |After(New(burst, rate, maxKeys), ops).order| <= maxKeys
  {
    if ops != [] {
      var init, l := ops[..|ops| - 1], After(New(burst, rate, maxKeys), ops[..|ops| - 1]);
      TrackedBound(burst, rate, maxKeys, init);
      RunValid(New(burst, rate, maxKeys), init);
      RoomForOne(l);
    }
  }

  /** Two clients too many for a limit of one, one for a limit of none. */
  function Flood(maxKeys: int): seq<Op> {
    if maxKeys < 0 then [] else if maxKeys == 0 then [Check("a", 0.0)] else [Check("a", 0.0), Check("b", 0.0)]
  }

  lemma FloodExceeds(burst: int, rate: real, maxKeys: int)
    requires rate > 0.0 && !Bounds(burst, maxKeys)
    ensures |After(New(burst, rate, maxKeys), Flood(maxKeys)).order| > maxKeys
  {
    if maxKeys >= 0 {
      var l, a, b := New(burst, rate, maxKeys), Check("a", 0.0), Check("b", 0.0);
      FirstClient(burst, rate, maxKeys);
      OneOp(l, a);
      if maxKeys == 1 {
        SecondClient(burst, rate, Apply(l, a));
        TwoOps(l, a, b);
      }
    }
  }

  lemma OneOp(l: Limiter, a: Op)
    ensures After(l, [a]) == Apply(l, a)
  {
    assert [a][..0] == [];
  }

  lemma TwoOps(l: Limiter, a: Op, b: Op)
    ensures After(l, [a, b]) == Apply(Apply(l, a), b)
  {
    assert [a, b][..1] == [a];
    OneOp(l, a);
  }

  lemma FirstClient(burst: int, rate: real, maxKeys: int)
    requires rate > 0.0 && maxKeys >= 0
    ensures var l1 := Apply(New(burst, rate, maxKeys), Check("a", 0.0));
            && l1.order == ["a"] && l1.maxKeys == maxKeys && l1.burst == burst
            && l1.buckets == map["a" := Taken(NewBucket(burst as real, rate), 0.0)]
  {
    var l := New(burst, rate, maxKeys);
    assert Active([], l.buckets) == [] && Room(l).order == [] && Room(l).buckets == map[];
  }

  lemma SecondClient(burst: int, rate: real, l1: Limiter)
    requires rate > 0.0 && burst >= 1 && l1.order == ["a"] && l1.maxKeys == 1
    requires l1.buckets == map["a" := Taken(NewBucket(burst as real, rate), 0.0)]
    ensures |Apply(l1, Check("b", 0.0)).order| == 2
  {
    var b := NewBucket(burst as real, rate);
    TakenFits(Limiter(burst, rate, 1, [], map[]), b, 0.0);
    assert !Idle(l1.buckets["a"]);
    OneBusy(l1.buckets);
    assert WithoutIdle(l1).order == ["a"];
    assert SliceLength(1, 0) == 0 && ["a"][0..] == ["a"];
  }

  lemma OneBusy(buckets: map<string, Bucket>)
    requires "a" in buckets && !Idle(buckets["a"])
    ensures Active(["a"], buckets) == ["a"]
  {
    assert ["a"][..0] == [];
    assert Active([], buckets) == [];
  }

  /** The number of tracked keys stays within `max_keys` in every run exactly when
      `max_keys` is at least 2 - or is 1 and no bucket can ever hold a token. */
  lemma TrackedExactly(burst: int, rate: real, maxKeys: int)
    requires rate > 0.0
    ensures (forall ops :: |After(New(burst, rate, maxKeys), ops).order| <= maxKeys) <==> Bounds(burst, maxKeys)
  {
    if Bounds(burst, maxKeys) {
      forall ops ensures |After(New(burst, rate, maxKeys), ops).order| <= maxKeys {
        TrackedBound(burst, rate, maxKeys, ops);
      }
    } else {
      FloodExceeds(burst, rate, maxKeys);
    }
  }

  // -- forgetting an idle bucket -----------------------------------------------

  /** A limiter that never forgets. */
  function IdealApply(l: Limiter, op: Op): Limiter
    requires Valid(l)
  {
    Apply(l.(maxKeys := |l.order| + 1), op).(maxKeys := l.maxKeys)
  }

  lemma IdealValid(l: Limiter, op: Op)
    requires Valid(l)
    ensures Valid(IdealApply(l, op))
  {
    StepValid(l.(maxKeys := |l.order| + 1), op);
  }

  /** The same buckets, except that idle ones may be missing. */
  ghost predicate Like(l: Limiter, ideal: Limiter) {
    && l.burst == ideal.burst && l.rate == ideal.rate
    && (forall k <- l.buckets :: k in ideal.buckets && l.buckets[k] == ideal.buckets[k])
    && (forall k <- ideal.buckets :: k in l.buckets || Idle(ideal.buckets[k]))
  }

  /** Fewer busy keys than `max_keys`: pruning need only forget idle ones. */
  predicate Uncrowded(l: Limiter) { |Active(l.order, l.buckets)| < l.maxKeys }

  lemma IdleIsNew(l: Limiter, b: Bucket, now: real)
    requires Fits(l, b) && Idle(b) && l.rate > 0.0
    ensures var fresh' := NewBucket(l.burst as real, l.rate);
            Answers(b, now) == Answers(fresh', now) && Taken(b, now) == Taken(fresh', now)
  {
    Product(b.rate, 0.0, Max(0.0, now - b.updated));
    Product(b.rate, 0.0, Max(0.0, now - 0.0));
  }

  lemma LikeAnswers(l: Limiter, ideal: Limiter, op: Op)
    requires Valid(l) && Valid(ideal) && Like(l, ideal)
    ensures Reply(l, op) == Reply(ideal, op)
  {
    if op.Check? && op.key in ideal.buckets && op.key !in l.buckets {
      IdleIsNew(ideal, ideal.buckets[op.key], op.now);
    }
  }

  lemma RoomIsLike(l: Limiter, ideal: Limiter)
    requires Valid(l) && Like(l, ideal) && Uncrowded(l)
    ensures Like(Room(l), ideal)
  {
  }

  lemma CheckIsLike(l: Limiter, ideal: Limiter, op: Op)
    requires Valid(l) && Valid(ideal) && Like(l, ideal) && Uncrowded(l) && op.Check?
    ensures Like(Apply(l, op), IdealApply(ideal, op))
  {
    RoomIsLike(l, ideal);
    PruneValid(l);
    if op.key in ideal.buckets && op.key !in l.buckets {
      IdleIsNew(ideal, ideal.buckets[op.key], op.now);
    }
  }

  lemma RefundIsLike(l: Limiter, ideal: Limiter, op: Op)
    requires Valid(l) && Valid(ideal) && Like(l, ideal) && op.Refund?
    ensures Like(Apply(l, op), IdealApply(ideal, op))
  {
  }

  function AnswersOf(l: Limiter, ops: seq<Op>): seq<Answer>
    requires Valid(l)
    decreases ops
  {
    if ops == [] then [] else StepValid(l, ops[0]); [Reply(l, ops[0])] + AnswersOf(Apply(l, ops[0]), ops[1..])
  }

  function IdealAnswers(l: Limiter, ops: seq<Op>): seq<Answer>
    requires Valid(l)
    decreases ops
  {
    if ops == [] then [] else IdealValid(l, ops[0]); [Reply(l, ops[0])] + IdealAnswers(IdealApply(l, ops[0]), ops[1..])
  }

  predicate AlwaysUncrowded(l: Limiter, ops: seq<Op>)
    decreases ops
  {
    ops == [] || (Uncrowded(l) && AlwaysUncrowded(Apply(l, ops[0]), ops[1..]))
  }

  /** As long as there are fewer busy keys than `max_keys`, no client can tell this
      limiter from one that never forgets: every answer is the same. */
  lemma {:induction false} PruningIsUnobservable(l: Limiter, ideal: Limiter, ops: seq<Op>)
    requires Valid(l) && Valid(ideal) && Like(l, ideal) && AlwaysUncrowded(l, ops)
    ensures AnswersOf(l, ops) == IdealAnswers(ideal, ops)
    decreases ops
  {
    if ops != [] {
      LikeAnswers(l, ideal, ops[0]);
      StepValid(l, ops[0]);
      IdealValid(ideal, ops[0]);
      if ops[0].Check? { CheckIsLike(l, ideal, ops[0]); } else { RefundIsLike(l, ideal, ops[0]); }
      PruningIsUnobservable(Apply(l, ops[0]), IdealApply(ideal, ops[0]), ops[1..]);
    }
  }

  lemma PruneForgets(l: Limiter)
    requires Valid(l) && l.maxKeys >= 2 && !Uncrowded(l)
    ensures var oldest := Active(l.order, l.buckets)[0];
            oldest in l.buckets && oldest !in Prune(l).buckets && |l.order| >= l.maxKeys
  {
    var active := Active(l.order, l.buckets);
    ActiveNoRepeats(l.order, l.buckets);
    assert active[0] in active;
    var rest := active[SliceLength(|active|, l.maxKeys / 2)..];
    assert active[0] !in rest;
  }

  lemma NewIsFull(l: Limiter, now: real)
    requires l.rate > 0.0 && l.burst >= 1
    ensures Answers(NewBucket(l.burst as real, l.rate), now) == Allowed
  {
    Product(l.rate, 0.0, Max(0.0, now - 0.0));
  }

  lemma IdealRemembers(l: Limiter, key: string, now: real, other: string, again: real)
    requires Valid(l) && key !in l.buckets && other in l.buckets
    ensures Valid(IdealApply(l, Check(key, now)))
    ensures Reply(IdealApply(l, Check(key, now)), Check(other, again)) == Answers(l.buckets[other], again)
  {
    IdealValid(l, Check(key, now));
  }

  /** Where it does get crowded, a new client makes the limiter forget the busy key it
      has known longest, and that client is let in again however drained it was.  A
      limiter that never forgets answers the same exactly when the key has a token. */
  lemma CrowdedForgets(l: Limiter, key: string, now: real, again: real)
    requires Valid(l) && l.burst >= 1 && l.maxKeys >= 2 && !Uncrowded(l) && key !in l.buckets
    ensures var oldest, l', ideal := Active(l.order, l.buckets)[0], Apply(l, Check(key, now)), IdealApply(l, Check(key, now));
            && Valid(l') && Valid(ideal) && oldest in l.buckets && oldest !in l'.buckets
            && Reply(l', Check(oldest, again)) == Allowed
            && (Reply(ideal, Check(oldest, again)) == Allowed <==> Level(l.buckets[oldest], again) >= 1.0)
  {
    StepValid(l, Check(key, now));
    PruneForgets(l);
    NewIsFull(l, again);
    IdealRemembers(l, key, now, Active(l.order, l.buckets)[0], again);
  }

  // -- the limiter object --------------------------------------------------------

  class RateLimiter {
    const burst: int
    const rate: real
    const maxKeys: int
    var order: seq<string>
    var buckets: map<string, TokenBucket>

    ghost predicate Owns()
      reads this
    {
      forall j, k :: j in buckets && k in buckets && j != k ==> buckets[j] != buckets[k]
    }

    function Value(): Limiter
      reads this, buckets.Values
    {
      Limiter(burst, rate, maxKeys, order, map k | k in buckets :: buckets[k].Value())
    }

    constructor (burst: int, rate: real, maxKeys: int)
      ensures Owns() && Value() == New(burst, rate, maxKeys)
    {
      this.burst, this.rate, this.maxKeys, order, buckets := burst, rate, maxKeys, [], map[];
    }

    method Drop(keys: seq<string>)
      requires Owns()
      modifies this
      ensures Owns() && buckets.Values <= old(buckets.Values)
      ensures Value() == Keep(old(Value()), keys)
    {
      order := keys;
      buckets := map k | k in buckets && k in keys :: buckets[k];
    }

    method MakeRoom()
      requires Owns()
      modifies this
      ensures Owns() && buckets.Values <= old(buckets.Values)
      ensures Value() == Room(old(Value()))
    {
      if |order| < maxKeys { return; }
      Drop(Active(order, Value().buckets));
      if |order| >= maxKeys {
        Drop(order[SliceLength(|order|, maxKeys / 2)..]);
      }
    }

    method Add(key: string)
      requires Owns()
      modifies this
      ensures Owns() && fresh(buckets.Values - old(buckets.Values)) && key in buckets
      ensures Value() == old(Value()).(order := old(order) + [key],
                                       buckets := old(Value()).buckets[key := NewBucket(burst as real, rate)])
    {
      var bucket := new TokenBucket(burst as real, rate);
      order, buckets := order + [key], buckets[key := bucket];
    }

    /** The bucket of a key, made if there is none. */
    method Find(key: string)
      requires Owns()
      modifies this
      ensures Owns() && fresh(buckets.Values - old(buckets.Values))
      ensures Value() == Touch(old(Value()), key) && key in buckets
    {
      if key !in buckets {
        MakeRoom();
        Add(key);
      }
    }

    /** One token from the bucket of a key. */
    method TakeFrom(key: string, now: real) returns (answer: Answer)
      requires Owns() && key in buckets && buckets[key].rate > 0.0
      modifies buckets[key]
      ensures Owns() && answer == Answers(old(buckets[key].Value()), now)
      ensures Value() == old(Value()).(buckets := old(Value()).buckets[key := Taken(old(buckets[key].Value()), now)])
    {
      answer := buckets[key].Take(now);
      assert Value().buckets == old(Value()).buckets[key := Taken(old(buckets[key].Value()), now)];
    }

    method Check(key: string, now: real) returns (answer: Answer)
      requires Owns() && Valid(Value())
      modifies this, buckets.Values
      ensures Owns() && Value() == Apply(old(Value()), Op.Check(key, now))
      ensures answer == Reply(old(Value()), Op.Check(key, now))
    {
      TouchValid(Value(), key);
      Find(key);
      assert buckets[key].Value() == Value().buckets[key];
      answer := TakeFrom(key, now);
    }

    method Refund(key: string)
      requires Owns()
      modifies buckets.Values
      ensures Owns() && Value() == Apply(old(Value()), Op.Refund(key))
    {
      if key in buckets { buckets[key].Refund(1.0); }
    }
  }

  /** `RateLimiter(...)`: a rate below one request per minute is refused, and the burst is
      the rate unless given. */
  method Configure(perMinute: int, burst: Option<int>, maxKeys: int) returns (limiter: Option<RateLimiter>)
    ensures limiter.None? <==> perMinute < 1
    ensures limiter.Some? ==>
              && fresh(limiter.value) && limiter.value.Owns() && Valid(limiter.value.Value())
              && limiter.value.Value() ==
                 New(if burst.Some? then burst.value else perMinute, perMinute as real / 60.0, maxKeys)
  {
    if perMinute < 1 { return None; }
    var size := if burst.Some? then burst.value else if perMinute >= 1 then perMinute else 1;
    var made := new RateLimiter(size, perMinute as real / 60.0, maxKeys);
    limiter := Some(made);
  }
}
