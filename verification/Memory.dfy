/** The life of a stored plan (src/memory/store.py, states.py, reputation.py): counters,
    reputation and state, episode by episode.  Scores are real numbers, rounded to
    hundredths. */
module Memory {
  import opened Common

  datatype State = Quarantined | Sandbox | Public

  // -- reputation ----------------------------------------------------------------

  function Clamp(low: real, high: real, x: real): real { if x < low then low else if x > high then high else x }

  datatype Counters = Counters(reuses: nat, successes: nat, ratingSum: real, ratings: nat)

  function Rate(successes: nat, reuses: nat): real {
    if reuses == 0 then 0.0 else Clamp(0.0, 1.0, successes as real / reuses as real)
  }

  function MeanRating(ratingSum: real, ratings: nat): real {
    if ratings == 0 then 0.0 else Clamp(0.0, 1.0, ratingSum / ratings as real / 5.0)
  }

  /** Python's `round(x, 2)` on a real number: the nearest hundredth, ties to the even one. */
  function Rounded(x: real): real {
    var scaled := x * 100.0;
    var low := scaled.Floor;
    var rest := scaled - low as real;
    (if rest < 0.5 || (rest == 0.5 && low % 2 == 0) then low else low + 1) as real / 100.0
  }

  lemma RoundedNear(x: real)
    ensures x - 0.005 <= Rounded(x) <= x + 0.005
    ensures 0.0 <= x ==> 0.0 <= Rounded(x)
    ensures x <= 100.0 ==> Rounded(x) <= 100.0
  {
    var low := (x * 100.0).Floor;
    assert Rounded(x) == low as real / 100.0 || Rounded(x) == (low + 1) as real / 100.0;
  }

  /** The nearest hundredth, and of two equally near ones the even one. */
  lemma RoundedExactly(x: real, n: int)
    ensures Rounded(x) == n as real / 100.0 <==>
            var d := x * 100.0 - n as real; -0.5 < d < 0.5 || ((d == 0.5 || d == -0.5) && n % 2 == 0)
  {
    var low := (x * 100.0).Floor;
    var nearest := if x * 100.0 - low as real < 0.5 || (x * 100.0 - low as real == 0.5 && low % 2 == 0) then low else low + 1;
    assert Rounded(x) == nearest as real / 100.0;
    assert nearest as real / 100.0 == n as real / 100.0 <==> nearest == n;
  }

  function Score(c: Counters): real { 100.0 * (0.7 * Rate(c.successes, c.reuses) + 0.3 * MeanRating(c.ratingSum, c.ratings)) }

  function Reputation(c: Counters): real {
    if c.reuses == 0 then 20.0 else Rounded(Clamp(0.0, 100.0, Score(c)))
  }

  function Counted(c: Counters, success: bool, rating: Option<real>): Counters {
    var rated := rating.Some? && 0.0 <= rating.value <= 5.0;
    Counters(c.reuses + 1, c.successes + (if success then 1 else 0),
             c.ratingSum + (if rated then rating.value else 0.0), c.ratings + (if rated then 1 else 0))
  }

  /** Counters that some episodes can have produced. */
  predicate Plausible(c: Counters) { c.successes <= c.reuses && 0.0 <= c.ratingSum <= 5.0 * c.ratings as real }

  lemma Fraction(x: real, y: real)
    requires 0.0 <= x <= y && 0.0 < y
    ensures 0.0 <= x / y <= 1.0
  {
  }

  lemma DivideTwice(x: real, n: real)
    requires n > 0.0
    ensures x / n / 5.0 == x / (5.0 * n)
  {
    var y := x / n / 5.0;
    assert y * 5.0 == x / n;
    assert y * 5.0 * n == x;
    assert y * (5.0 * n) == x;
  }

  /** The clamps of the formula never act on a real history: the reputation is the
      documented weighted sum, rounded, between 0 and 100. */
  lemma FormulaHolds(c: Counters)
    requires Plausible(c) && c.reuses > 0
    ensures var rate := c.successes as real / c.reuses as real;
            var mean := if c.ratings == 0 then 0.0 else c.ratingSum / c.ratings as real / 5.0;
            Reputation(c) == Rounded(100.0 * (0.7 * rate + 0.3 * mean)) && 0.0 <= Reputation(c) <= 100.0
  {
    Fraction(c.successes as real, c.reuses as real);
    if c.ratings > 0 {
      Fraction(c.ratingSum, 5.0 * c.ratings as real);
      DivideTwice(c.ratingSum, c.ratings as real);
    }
    RoundedNear(Score(c));
  }

  // -- states -----------------------------------------------------------------------

  predicate CanTransition(from: State, to: State) {
    match from
    case Quarantined => to == Sandbox || to == Quarantined
    case Sandbox => true
    case Public => to == Quarantined
  }

  function NextState(state: State, proofs: nat, reputation: real, ok: bool): State {
    if !ok then Quarantined
    else if state == Quarantined then Sandbox
    else if state == Sandbox && proofs >= 1 && reputation >= 60.0 then Public
    else state
  }

  datatype Item = Item(counters: Counters, state: State, reputation: real)

  function NewItem(): Item { Item(Counters(0, 0, 0.0, 0), Quarantined, 20.0) }

  datatype Episode = Episode(success: bool, rating: Option<real>)

  /** `record_episode`: the item afterwards, or nothing when the transition is illegal. */
  function Recorded(item: Item, e: Episode): Option<Item> {
    var counters := Counted(item.counters, e.success, e.rating);
    var state := NextState(item.state, counters.successes, Reputation(counters), e.success);
    if CanTransition(item.state, state) then Some(Item(counters, state, Reputation(counters))) else None
  }

  /** An item after a history of episodes; refused ones change nothing. */
  function After(history: seq<Episode>): Item {
    if history == [] then NewItem()
    else
      var before := After(history[..|history| - 1]);
      var r := Recorded(before, history[|history| - 1]);
      if r.Some? then r.value else before
  }

  /** The outcomes of the episodes that were accepted. */
  function Outcomes(history: seq<Episode>): seq<bool> {
    if history == [] then []
    else
      var init, last := history[..|history| - 1], history[|history| - 1];
      if Recorded(After(init), last).Some? then Outcomes(init) + [last.success] else Outcomes(init)
  }

  /** The ratings that the accepted episodes gave, as far as they are within 0 and 5. */
  function Ratings(history: seq<Episode>): seq<real> {
    if history == [] then []
    else
      var init, last := history[..|history| - 1], history[|history| - 1];
      if Recorded(After(init), last).None? then Ratings(init)
      else
        match last.rating
        case Some(stars) => if 0.0 <= stars && stars <= 5.0 then Ratings(init) + [stars] else Ratings(init)
        case None => Ratings(init)
  }

  function Sum(xs: seq<real>): real { if xs == [] then 0.0 else Sum(xs[..|xs| - 1]) + xs[|xs| - 1] }

  function Successes(outcomes: seq<bool>): nat {
    if outcomes == [] then 0
    else Successes(outcomes[..|outcomes| - 1]) + (if outcomes[|outcomes| - 1] then 1 else 0)
  }

  predicate LastOk(outcomes: seq<bool>, n: nat) { |outcomes| >= n && forall i :: |outcomes| - n <= i < |outcomes| ==> outcomes[i] }

  // -- laws -------------------------------------------------------------------------

  /** The one kind of episode that is refused: a success of a public plan. */
  lemma RefusedExactly(item: Item, e: Episode)
    ensures Recorded(item, e).None? <==> item.state == Public && e.success
  {
  }

  ghost predicate Lawful(item: Item, outcomes: seq<bool>) {
    && Plausible(item.counters)
    && item.counters.reuses == |outcomes| && item.counters.successes == Successes(outcomes)
    && item.reputation == Reputation(item.counters)
    && (item.state == Quarantined <==> !LastOk(outcomes, 1))
    && (item.state == Public <==> LastOk(outcomes, 2) && item.reputation >= 60.0)
  }

  lemma OneMoreOutcome(outcomes: seq<bool>, ok: bool)
    ensures Successes(outcomes + [ok]) == Successes(outcomes) + (if ok then 1 else 0)
    ensures LastOk(outcomes + [ok], 1) <==> ok
    ensures LastOk(outcomes + [ok], 2) <==> ok && LastOk(outcomes, 1)
  {
    var all := outcomes + [ok];
    assert all[..|outcomes|] == outcomes && all[|outcomes|] == ok;
    if ok && LastOk(outcomes, 1) {
      assert all[|all| - 2] == outcomes[|outcomes| - 1];
    }
    if LastOk(all, 2) { assert all[|all| - 2] == outcomes[|outcomes| - 1]; }
  }

  lemma CountedPlausible(c: Counters, e: Episode)
    requires Plausible(c)
    ensures Plausible(Counted(c, e.success, e.rating))
  {
  }

  lemma StepLawful(item: Item, e: Episode, outcomes: seq<bool>)
    requires Lawful(item, outcomes) && Recorded(item, e).Some?
    ensures Lawful(Recorded(item, e).value, outcomes + [e.success])
  {
    CountedPlausible(item.counters, e);
    OneMoreOutcome(outcomes, e.success);
  }

  /** Over every history: the counters count the accepted episodes, the stored
      reputation is that of the counters, and the state is exactly what the last two
      accepted outcomes and the reputation make it. */
  lemma {:induction false} HistoryLawful(history: seq<Episode>)
    ensures Lawful(After(history), Outcomes(history))
  {
    if history != [] {
      var init, last := history[..|history| - 1], history[|history| - 1];
      HistoryLawful(init);
      if Recorded(After(init), last).Some? { StepLawful(After(init), last, Outcomes(init)); }
    }
  }

  /** The rating counters are the sum and the number of those ratings. */
  lemma {:induction false} RatingsCounted(history: seq<Episode>)
    ensures After(history).counters.ratings == |Ratings(history)| && After(history).counters.ratingSum == Sum(Ratings(history))
  {
    if history != [] {
      var init, last := history[..|history| - 1], history[|history| - 1];
      RatingsCounted(init);
      if last.rating.Some? {
        assert (Ratings(init) + [last.rating.value])[..|Ratings(init)|] == Ratings(init);
      }
    }
  }

  /** The documented formula: 70% success rate, 30% mean rating out of five. */
  function Documented(successes: nat, reuses: nat, stars: real, ratings: nat): real
    requires reuses > 0
  {
    var rate := successes as real / reuses as real;
    var mean := if ratings == 0 then 0.0 else stars / ratings as real / 5.0;
    Rounded(100.0 * (0.7 * rate + 0.3 * mean))
  }

  lemma DocumentedHolds(c: Counters)
    requires Plausible(c) && c.reuses > 0
    ensures Reputation(c) == Documented(c.successes, c.reuses, c.ratingSum, c.ratings)
  {
    FormulaHolds(c);
  }

  lemma CountersTell(c: Counters, successes: nat, reuses: nat, stars: real, ratings: nat)
    requires Plausible(c) && c == Counters(reuses, successes, stars, ratings)
    ensures Reputation(c) == if reuses == 0 then 20.0 else Documented(successes, reuses, stars, ratings)
  {
    if reuses > 0 { DocumentedHolds(c); }
  }

  /** So the reputation after any history is that of its accepted outcomes and ratings. */
  lemma ReputationOfHistory(history: seq<Episode>)
    ensures var outcomes, stars := Outcomes(history), Ratings(history);
            After(history).reputation ==
            if outcomes == [] then 20.0 else Documented(Successes(outcomes), |outcomes|, Sum(stars), |stars|)
  {
    HistoryLawful(history);
    RatingsCounted(history);
    CountersTell(After(history).counters, Successes(Outcomes(history)), |Outcomes(history)|, Sum(Ratings(history)), |Ratings(history)|);
  }

  /** A reusable plan has a reputation of at least 60 and succeeded the last two times. */
  lemma PublicIsProven(history: seq<Episode>)
    requires After(history).state == Public
    ensures var outcomes := Outcomes(history);
            && 60.0 <= After(history).reputation <= 100.0
            && |outcomes| >= 2 && outcomes[|outcomes| - 1] && outcomes[|outcomes| - 2]
            && After(history).counters.successes <= After(history).counters.reuses
  {
    HistoryLawful(history);
    FormulaHolds(After(history).counters);
  }

  lemma {:induction false} OutcomesGrow(history: seq<Episode>, more: seq<Episode>)
    ensures Outcomes(history) <= Outcomes(history + more)
  {
    if more == [] {
      assert history + more == history;
    } else {
      var init := more[..|more| - 1];
      OutcomesGrow(history, init);
      assert (history + more)[..|history + more| - 1] == history + init;
    }
  }

  /** A failure is always accepted and quarantines the plan, and at least two more
      accepted successes come before anyone may reuse it. */
  lemma FailureQuarantines(history: seq<Episode>, failed: Episode, more: seq<Episode>)
    requires !failed.success
    ensures After(history + [failed]).state == Quarantined
    ensures After(history + [failed] + more).state == Public ==>
              LastOk(Outcomes(history + [failed] + more), 2) &&
              |Outcomes(history + [failed] + more)| >= |Outcomes(history + [failed])| + 2
  {
    var h1, h2 := history + [failed], history + [failed] + more;
    assert h1[..|history|] == history;
    RefusedExactly(After(history), failed);
    HistoryLawful(h1);
    HistoryLawful(h2);
    OutcomesGrow(h1, more);
    var o1, o2 := Outcomes(h1), Outcomes(h2);
    assert o1[|o1| - 1] == failed.success && o2[|o1| - 1] == o1[|o1| - 1];
  }

  // -- the store ------------------------------------------------------------------------

  datatype Outcome = Updated(item: Item) | UnknownItem | InvalidStateTransition

  class MemoryStore {
    var items: map<string, Item>

    constructor ()
      ensures items == map[]
    {
      items := map[];
    }

    method RecordEpisode(id: string, success: bool, rating: Option<real>) returns (r: Outcome)
      modifies this
      ensures id !in old(items) ==> r == UnknownItem && items == old(items)
      ensures id in old(items) ==>
                var next := Recorded(old(items)[id], Episode(success, rating));
                && (next.Some? ==> r == Updated(next.value) && items == old(items)[id := next.value])
                && (next.None? ==> r == InvalidStateTransition && items == old(items))
    {
      if id !in items { return UnknownItem; }
      var item := items[id];
      var counters := Counted(item.counters, success, rating);
      var target := NextState(item.state, counters.successes, Reputation(counters), success);
      if !CanTransition(item.state, target) { return InvalidStateTransition; }
      var updated := Item(counters, target, Reputation(counters));
      items := items[id := updated];
      r := Updated(updated);
    }
  }
}
