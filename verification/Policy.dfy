/** Adaptive refresh intervals (internal/scraper/policy.go). Durations are integer nanoseconds; the
    repository stores an interval in whole seconds, so the interval a target carries from one run to
    the next is `Stored` of what NextSchedule computed. */
module Policy {
  import opened Domain

  const SECOND := 1_000_000_000
  const MINUTE := 60 * SECOND
  const HOUR := 60 * MINUTE
  const DAY := 24 * HOUR

  datatype Policy = Policy(initial: int, min: int, max: int, maxServeAge: int)

  datatype Schedule = Schedule(interval: int, history: seq<bool>)

  function PolicyFor(kind: Kind, status: SessionStatus): Policy {
    match kind
    case CourseCatalog => Policy(HOUR, 15 * MINUTE, DAY, 2 * DAY)
    case CourseDetail => Policy(HOUR, 15 * MINUTE, DAY, 2 * DAY)
    case SessionDetail =>
      if status == DONE then Policy(12 * HOUR, HOUR, 30 * DAY, 45 * DAY)
      else if status == NOT_STARTED then Policy(HOUR, 15 * MINUTE, 12 * HOUR, DAY)
      else Policy(5 * MINUTE, MINUTE, 30 * MINUTE, 2 * HOUR)
    case StudentProfiles => Policy(DAY, 6 * HOUR, 7 * DAY, 14 * DAY)
  }

  function LastTen(history: seq<bool>): seq<bool> {
    if |history| > 10 then history[|history| - 10..] else history
  }

  predicate AllUnchanged(history: seq<bool>) {
    forall i :: 0 <= i < |history| ==> !history[i]
  }

  /** math.Round of 1.5 times a duration; exact in float64 below 2^52 nanoseconds (52 days). */
  function OneAndAHalf(d: int): int {
    if d >= 0 then (3 * d + 1) / 2 else -((1 - 3 * d) / 2)
  }

  function Clamp(p: Policy, interval: int): int {
    var atLeastMin := if p.min > 0 && interval < p.min then p.min else interval;
    if p.max > 0 && atLeastMin > p.max then p.max else atLeastMin
  }

  /** Go's integer division by 2, which truncates toward zero. */
  function Halved(d: int): int { if d >= 0 then d / 2 else -((-d) / 2) }

  function NextSchedule(p: Policy, given: int, history: seq<bool>, outcome: Outcome): Schedule {
    var positive := if given <= 0 then p.initial else given;
    var current := if positive <= 0 then p.min else positive;
    var next := LastTen(history + [outcome.Changed?]);
    var interval :=
      if outcome.Changed? then Halved(current)
      else if |next| == 10 && AllUnchanged(next) then current * 2
      else OneAndAHalf(current);
    Schedule(Clamp(p, interval), next)
  }

  /** durationSeconds and back: what a commit stores and the next claim reads. */
  function Stored(interval: int): int { interval / SECOND * SECOND }

  /** policyForTarget: the columns of the row override the policy of its kind wherever they are positive, the
      row's own interval taking the place of the initial one. */
  function RowPolicy(base: Policy, interval: int, min: int, max: int, maxServeAge: int): Policy {
    Policy(if interval > 0 then interval else base.initial, if min > 0 then min else base.min,
           if max > 0 then max else base.max, if maxServeAge > 0 then maxServeAge else base.maxServeAge)
  }

  /** The schedule after a sequence of successful runs of a row with the columns of `p`, each persisted before
      the next is claimed. */
  function AfterRuns(p: Policy, s: Schedule, outcomes: seq<Outcome>): Schedule
    decreases |outcomes|
  {
    if outcomes == [] then s
    else
      var before := AfterRuns(p, s, outcomes[..|outcomes| - 1]);
      var row := RowPolicy(p, before.interval, p.min, p.max, p.maxServeAge);
      var next := NextSchedule(row, before.interval, before.history, outcomes[|outcomes| - 1]);
      Schedule(Stored(next.interval), next.history)
  }

  /** What the schema demands of a row's policy columns, and hence of every policy a run works with: positive
      and ordered, in whole seconds. `initial` is the row's own interval and may be anything. */
  predicate Admitted(p: Policy) {
    SECOND <= p.min <= p.max <= p.maxServeAge && p.min % SECOND == 0 && p.max % SECOND == 0
  }

  /** What the policies that targets are seeded with have in common. */
  predicate Bounded(p: Policy) {
    Admitted(p) && MINUTE <= p.min && p.max <= 720 * p.min && 3 * p.max <= 2 * p.maxServeAge
  }

  predicate Settled(p: Policy, interval: int) {
    p.min <= interval <= p.max && interval % SECOND == 0
  }

  lemma SeededPoliciesBounded(kind: Kind, status: SessionStatus)
    ensures Bounded(PolicyFor(kind, status)) && Settled(PolicyFor(kind, status), PolicyFor(kind, status).initial)
  {
  }

  lemma StoredBetween(lo: int, d: int, hi: int)
    requires lo % SECOND == 0 && hi % SECOND == 0 && 0 <= lo <= d <= hi
    ensures lo <= Stored(d) <= hi && Stored(d) % SECOND == 0
    ensures d - SECOND < Stored(d) <= d
  {
    assert lo == lo / SECOND * SECOND;
    assert lo / SECOND <= d / SECOND;
  }

  /** One persisted run puts any interval whatever back into [Min, Max]. */
  lemma OneRunSettles(p: Policy, interval: int, history: seq<bool>, outcome: Outcome)
    requires Admitted(p)
    ensures p.min <= NextSchedule(p, interval, history, outcome).interval <= p.max
    ensures Settled(p, Stored(NextSchedule(p, interval, history, outcome).interval))
  {
    StoredBetween(p.min, NextSchedule(p, interval, history, outcome).interval, p.max);
  }

  /** How a persisted run moves an interval: into range from anywhere. Once in range, unchanged runs strictly grow
      it until the maximum, which they hold; changed runs strictly shrink it until the minimum, which they hold. */
  predicate Moves(p: Policy, interval: int, outcome: Outcome, next: int) {
    && Settled(p, next)
    && (Settled(p, interval) && !outcome.Changed? ==>
          && (interval == p.max ==> next == p.max)
          && (interval < p.max ==> next > interval)
          && (next == p.max || 2 * (next + SECOND) > 3 * interval))
    && (Settled(p, interval) && outcome.Changed? ==>
          && (interval == p.min ==> next == p.min)
          && (interval > p.min ==> next < interval)
          && (next == p.min || 2 * next <= interval))
  }

  lemma OneRun(p: Policy, interval: int, history: seq<bool>, outcome: Outcome)
    requires Bounded(p)
    ensures Moves(p, interval, outcome, Stored(NextSchedule(p, interval, history, outcome).interval))
  {
    StoredBetween(p.min, NextSchedule(p, interval, history, outcome).interval, p.max);
  }

  lemma LastRun(p: Policy, s: Schedule, outcomes: seq<Outcome>)
    requires Bounded(p) && outcomes != []
    ensures Moves(p, AfterRuns(p, s, outcomes[..|outcomes| - 1]).interval, outcomes[|outcomes| - 1],
                  AfterRuns(p, s, outcomes).interval)
  {
    var before := AfterRuns(p, s, outcomes[..|outcomes| - 1]);
    OneRun(RowPolicy(p, before.interval, p.min, p.max, p.maxServeAge), before.interval, before.history,
           outcomes[|outcomes| - 1]);
  }

  /** Every policy the schema admits, every start and every outcome sequence: after the first run the interval
      never leaves [Min, Max], and the change history is the last ten outcomes. */
  lemma {:induction false} IntervalStaysInPolicy(p: Policy, s: Schedule, outcomes: seq<Outcome>)
    requires Admitted(p) && outcomes != []
    ensures Settled(p, AfterRuns(p, s, outcomes).interval)
    ensures |AfterRuns(p, s, outcomes).history| <= 10
  {
    var before := AfterRuns(p, s, outcomes[..|outcomes| - 1]);
    OneRunSettles(RowPolicy(p, before.interval, p.min, p.max, p.maxServeAge), before.interval, before.history,
                  outcomes[|outcomes| - 1]);
  }

  /** A lower bound on the interval after n unchanged runs, starting no lower than `min`; each run loses
      at most a second to whole-second storage. */
  function Grown(n: nat, min: int): int {
    if n == 0 then min else (3 * Grown(n - 1, min)) / 2 - SECOND
  }

  /** `lead` is the run that settles a start out of range; a start in range needs none. */
  lemma {:induction false} UnchangedGrows(p: Policy, s: Schedule, outcomes: seq<Outcome>, lead: nat)
    requires Bounded(p) && lead <= 1 && lead <= |outcomes| && (lead == 0 ==> Settled(p, s.interval))
    requires forall i :: 0 <= i < |outcomes| ==> !outcomes[i].Changed?
    ensures var t := AfterRuns(p, s, outcomes).interval;
            Settled(p, t) && (t == p.max || t >= Grown(|outcomes| - lead, p.min))
  {
    if outcomes != [] {
      if |outcomes| > lead { UnchangedGrows(p, s, outcomes[..|outcomes| - 1], lead); }
      LastRun(p, s, outcomes);
    }
  }

  lemma SixRunsGrowNinefold(n: nat, min: int)
    requires Grown(n, min) >= MINUTE
    ensures Grown(n + 6, min) >= 9 * Grown(n, min)
  {
    var g := Grown(n, min);
    assert 2 * Grown(n + 1, min) >= 3 * g - 2 * SECOND - 1;
    assert 4 * Grown(n + 2, min) >= 9 * g - 10 * SECOND - 5;
    assert 8 * Grown(n + 3, min) >= 27 * g - 38 * SECOND - 19;
    assert 16 * Grown(n + 4, min) >= 81 * g - 130 * SECOND - 65;
    assert 32 * Grown(n + 5, min) >= 243 * g - 422 * SECOND - 211;
  }

  lemma EighteenRunsSuffice(p: Policy)
    requires Bounded(p)
    ensures Grown(18, p.min) >= p.max
  {
    SixRunsGrowNinefold(0, p.min);
    SixRunsGrowNinefold(6, p.min);
    SixRunsGrowNinefold(12, p.min);
  }

  /** Convergence upward: nineteen consecutive unchanged outcomes reach the maximum from any start whatever,
      eighteen from a start in range, and any further ones keep it there. */
  lemma {:induction false} UnchangedConverges(p: Policy, s: Schedule, outcomes: seq<Outcome>)
    requires Bounded(p)
    requires |outcomes| >= 19 || (|outcomes| == 18 && Settled(p, s.interval))
    requires forall i :: 0 <= i < |outcomes| ==> !outcomes[i].Changed?
    ensures AfterRuns(p, s, outcomes).interval == p.max
  {
    if |outcomes| <= 19 {
      UnchangedGrows(p, s, outcomes, |outcomes| - 18);
      EighteenRunsSuffice(p);
    } else {
      UnchangedConverges(p, s, outcomes[..|outcomes| - 1]);
      LastRun(p, s, outcomes);
    }
  }

  function Shrunk(n: nat, max: int): int {
    if n == 0 then max else Shrunk(n - 1, max) / 2
  }

  lemma {:induction false} ChangedShrinks(p: Policy, s: Schedule, outcomes: seq<Outcome>, lead: nat)
    requires Bounded(p) && lead <= 1 && lead <= |outcomes| && (lead == 0 ==> Settled(p, s.interval))
    requires forall i :: 0 <= i < |outcomes| ==> outcomes[i].Changed?
    ensures var t := AfterRuns(p, s, outcomes).interval;
            Settled(p, t) && (t == p.min || t <= Shrunk(|outcomes| - lead, p.max))
  {
    if outcomes != [] {
      if |outcomes| > lead { ChangedShrinks(p, s, outcomes[..|outcomes| - 1], lead); }
      LastRun(p, s, outcomes);
    }
  }

  lemma TenRunsSuffice(p: Policy)
    requires Bounded(p)
    ensures Shrunk(10, p.max) <= p.min
  {
    assert 2 * Shrunk(1, p.max) <= p.max;
    assert 4 * Shrunk(2, p.max) <= p.max;
    assert 16 * Shrunk(4, p.max) <= p.max;
    assert 64 * Shrunk(6, p.max) <= p.max;
    assert 256 * Shrunk(8, p.max) <= p.max;
  }

  /** Convergence downward: eleven consecutive changed outcomes reach the minimum from any start whatever, ten
      from a start in range, and any further ones keep it there. */
  lemma {:induction false} ChangedConverges(p: Policy, s: Schedule, outcomes: seq<Outcome>)
    requires Bounded(p)
    requires |outcomes| >= 11 || (|outcomes| == 10 && Settled(p, s.interval))
    requires forall i :: 0 <= i < |outcomes| ==> outcomes[i].Changed?
    ensures AfterRuns(p, s, outcomes).interval == p.min
  {
    if |outcomes| <= 11 {
      ChangedShrinks(p, s, outcomes, |outcomes| - 10);
      TenRunsSuffice(p);
    } else {
      ChangedConverges(p, s, outcomes[..|outcomes| - 1]);
      LastRun(p, s, outcomes);
    }
  }

  // ---- Jitter and the serve window ----

  /** math.Round on a nonnegative real. */
  function Round(x: real): int { (x + 0.5).Floor }

  /** ApplyJitter with fraction 0.1; `draw` is the value rng.Float64 returned. */
  function ApplyJitter(base: int, draw: real): int {
    if base <= 0 then base
    else Round(base as real + (draw * 2.0 - 1.0) * 0.1 * base as real)
  }

  lemma JitterBounds(base: int, draw: real)
    requires base > 0 && 0.0 <= draw < 1.0
    ensures var delay := ApplyJitter(base, draw) as real;
            0.9 * base as real - 0.5 <= delay <= 1.1 * base as real + 0.5
  {
    var b, factor := base as real, (draw * 2.0 - 1.0) * 0.1;
    Product(factor, b);
  }

  lemma Product(f: real, b: real)
    requires -0.1 <= f <= 0.1 && b >= 0.0
    ensures -0.1 * b <= f * b <= 0.1 * b
  {
    assert (0.1 - f) * b >= 0.0 && (f + 0.1) * b >= 0.0;
  }

  /** A target validated now is looked at again inside its serve window: for every bounded policy, every start,
      history and outcome and every draw in [0, 1), the jittered delay is within ten per cent of the new
      interval (up to rounding) and never exceeds MaxServeAge. */
  lemma {:induction false} NextRunWithinServeAge(p: Policy, interval: int, history: seq<bool>, outcome: Outcome,
                                                 draw: real)
    requires Bounded(p) && 0.0 <= draw < 1.0
    ensures var next := NextSchedule(p, interval, history, outcome).interval;
            var delay := ApplyJitter(next, draw);
            && 9 * next - 5 <= 10 * delay <= 11 * next + 5
            && 0 < delay <= p.maxServeAge
  {
    OneRunSettles(p, interval, history, outcome);
    JitterBounds(NextSchedule(p, interval, history, outcome).interval, draw);
  }

  // ---- The rules in numbers ----

  /** The bounds and starting points each kind is seeded with, in seconds. */
  lemma SeededPolicies(kind: Kind, status: SessionStatus)
    ensures var p := PolicyFor(kind, status);
            var seconds := (p.initial / SECOND, p.min / SECOND, p.max / SECOND, p.maxServeAge / SECOND);
            match kind
            case CourseCatalog => seconds == (3600, 900, 86400, 172800)
            case CourseDetail => seconds == (3600, 900, 86400, 172800)
            case SessionDetail =>
              if status == "done" then seconds == (43200, 3600, 2592000, 3888000)
              else if status == "not_started" then seconds == (3600, 900, 43200, 86400)
              else seconds == (300, 60, 1800, 7200)
            case StudentProfiles => seconds == (86400, 21600, 604800, 1209600)
  {
  }

  /** What a run makes of a positive interval before it is clamped: half of it after a change; twice as much after ten
      runs in a row without one; half as much again otherwise, an odd half rounded up. */
  predicate Stepped(interval: int, tenth: bool, outcome: Outcome, next: int) {
    && (outcome.Changed? ==> 2 * next <= interval < 2 * next + 2)
    && (!outcome.Changed? && tenth ==> next == 2 * interval)
    && (!outcome.Changed? && !tenth ==> 2 * next - 1 <= 3 * interval <= 2 * next)
  }

  /** `n` is the nearest point of [lo, hi]. */
  predicate Nearest(lo: int, hi: int, x: int, n: int) {
    lo <= n <= hi && (lo <= x <= hi ==> n == x) && (x < lo ==> n == lo) && (x > hi ==> n == hi)
  }

  /** The last ten outcomes with a new one. */
  predicate Appended(history: seq<bool>, changed: bool, next: seq<bool>) {
    && |next| == (if |history| >= 10 then 10 else |history| + 1)
    && next[|next| - 1] == changed
    && forall i :: 0 <= i < |next| - 1 ==> next[i] == history[|history| + 1 - |next| + i]
  }

  lemma LastTenAppends(history: seq<bool>, changed: bool)
    ensures Appended(history, changed, LastTen(history + [changed]))
  {
  }

  lemma SteppedInterval(current: int, tenth: bool, outcome: Outcome)
    requires current > 0
    ensures Stepped(current, tenth, outcome, if outcome.Changed? then Halved(current)
                                             else if tenth then current * 2 else OneAndAHalf(current))
  {
  }

  predicate TenUnchanged(history: seq<bool>) { |history| == 10 && forall i :: 0 <= i < 10 ==> !history[i] }

  /** NextSchedule in numbers: the run steps the current interval, clamped to the policy, and appends to the last ten
      outcomes. */
  lemma NextScheduleMeans(p: Policy, given: int, history: seq<bool>, outcome: Outcome)
    requires Admitted(p)
    ensures var s := NextSchedule(p, given, history, outcome);
            var current := if given > 0 then given else if p.initial > 0 then p.initial else p.min;
            && Appended(history, outcome.Changed?, s.history)
            && exists x :: Stepped(current, TenUnchanged(s.history), outcome, x) && Nearest(p.min, p.max, x, s.interval)
  {
    var next := LastTen(history + [outcome.Changed?]);
    LastTenAppends(history, outcome.Changed?);
    var current := if given > 0 then given else if p.initial > 0 then p.initial else p.min;
    SteppedInterval(current, TenUnchanged(next), outcome);
    var x := if outcome.Changed? then Halved(current)
             else if TenUnchanged(next) then current * 2 else OneAndAHalf(current);
    assert Nearest(p.min, p.max, x, Clamp(p, x));
  }

  /** The delay drawn for an interval is 0.9 to 1.1 times it, in proportion to the draw and rounded. */
  lemma JitterMeans(base: int, draw: real)
    requires base > 0
    ensures var exact := (0.9 + 0.2 * draw) * base as real;
            exact - 0.5 <= ApplyJitter(base, draw) as real <= exact + 0.5
  {
    var b := base as real;
    assert b + (draw * 2.0 - 1.0) * 0.1 * b == (0.9 + 0.2 * draw) * b;
  }

  function Outcomes(history: seq<bool>, outcomes: seq<Outcome>): seq<bool> {
    history + seq(|outcomes|, i requires 0 <= i < |outcomes| => outcomes[i].Changed?)
  }

  /** Over any sequence of runs the history is the last ten of what it was and what came. */
  lemma {:induction false} HistoryIsLastTen(p: Policy, s: Schedule, outcomes: seq<Outcome>)
    requires |s.history| <= 10
    ensures var all, h := Outcomes(s.history, outcomes), AfterRuns(p, s, outcomes).history;
            |h| <= |all| && h == all[|all| - |h|..] && |h| == if |all| < 10 then |all| else 10
  {
    if outcomes == [] {
      assert Outcomes(s.history, outcomes) == s.history;
    } else {
      var n := |outcomes| - 1;
      HistoryIsLastTen(p, s, outcomes[..n]);
      assert Outcomes(s.history, outcomes) == Outcomes(s.history, outcomes[..n]) + [outcomes[n].Changed?];
    }
  }
}
