/** Admission to one upstream host (internal/db/snapshot_repository.go): a token bucket with adaptive rate and
    concurrency, driven by timestamps that arrive in any order. Times are seconds as reals. */
module HostAdmission {
  import opened Domain
  import opened Repository

  datatype Host = Host(
    baseRate: real, rate: real, burst: nat, tokens: real, clock: real, baseConcurrency: int, concurrency: int,
    consecutive429s: nat, last429: Option<real>, healthy: nat, pausedUntil: Option<real>)

  datatype Permit = Permit(id: nat, expiresAt: real)

  /** The host row and its permit rows, unique per (target, generation). `grants` logs the host-clock time of
      every new permit and `calm` counts the successes since the last 429, for the theorems to talk about. */
  datatype Desk = Desk(host: Option<Host>, permits: map<Key, Permit>, lastPermit: nat, grants: seq<real>, calm: nat)

  datatype HostSeed = HostSeed(host: string, rate: real, burst: int, concurrency: int, now: real)

  datatype Request = Request(host: string, worker: string, key: Key, now: real, ttl: real)

  datatype Decision =
    | Granted(id: nat, expiresAt: real) | Held(permit: Permit) | Paused(retryAt: real) | Busy(retryAt: real)
    | Starved(retryAt: real) | Superseded | Unserved

  datatype Observation = Observation(outcome: Outcome, at: real, retryAfter: real, failures: int)

  const QUARTER_HOUR := 900.0
  const FULL_HOUR := 3600.0
  const FLOOR_RATE := 0.25

  // ---- Seeding ----

  predicate ValidHostSeed(s: HostSeed) {
    !Blank(s.host) && FLOOR_RATE <= s.rate <= 5.0 && 1 <= s.burst <= 5 && 1 <= s.concurrency <= 4
  }

  function Min(a: real, b: real): real { if a <= b then a else b }

  function Max(a: real, b: real): real { if a <= b then b else a }

  function Seeded(host: Option<Host>, s: HostSeed): Host
    requires ValidHostSeed(s)
  {
    match host
    case None =>
      Host(s.rate, s.rate, s.burst, s.burst as real, s.now, s.concurrency, s.concurrency, 0, None, 0, None)
    case Some(h) =>
      h.(baseRate := s.rate, rate := Min(h.rate, s.rate), burst := s.burst, tokens := Min(h.tokens, s.burst as real),
         baseConcurrency := s.concurrency, concurrency := Least(h.concurrency, s.concurrency))
  }

  // ---- The bucket ----

  function Refill(h: Host, now: real): real {
    var elapsed := if now - h.clock < 0.0 then 0.0 else now - h.clock;
    var refilled := h.tokens + elapsed * h.rate;
    var capped := if refilled > h.burst as real then h.burst as real else refilled;
    if capped < 0.0 then 0.0 else capped
  }

  // ---- Acquiring ----

  predicate ValidRequest(q: Request) {
    !Blank(q.host) && !Blank(q.worker) && q.key.target > 0 && q.key.generation > 0 && q.ttl > 0.0
  }

  function Unexpired(permits: map<Key, Permit>, now: real): map<Key, Permit> {
    map k | k in permits && permits[k].expiresAt > now :: permits[k]
  }

  /** MIN(expires_at), or `otherwise` when there is no row. */
  ghost function Earliest(permits: map<Key, Permit>, otherwise: real): (at: real)
    ensures permits == map[] ==> at == otherwise
    ensures permits != map[] ==>
              && (exists k :: k in permits && permits[k].expiresAt == at)
              && (forall k :: k in permits ==> at <= permits[k].expiresAt)
  {
    if permits == map[] then otherwise
    else
      EarliestExists(permits, permits.Keys);
      var k :| k in permits && forall j :: j in permits ==> permits[k].expiresAt <= permits[j].expiresAt;
      permits[k].expiresAt
  }

  lemma {:induction false} EarliestExists(permits: map<Key, Permit>, keys: set<Key>)
    requires keys != {} && keys <= permits.Keys
    ensures exists k :: k in keys && forall j :: j in keys ==> permits[k].expiresAt <= permits[j].expiresAt
    decreases keys
  {
    var k := PickOne(keys);
    if keys != {k} {
      var rest := keys - {k};
      EarliestExists(permits, rest);
      var m :| m in rest && forall j :: j in rest ==> permits[m].expiresAt <= permits[j].expiresAt;
      var least := if permits[k].expiresAt <= permits[m].expiresAt then k else m;
      assert forall j :: j in keys ==> permits[least].expiresAt <= permits[j].expiresAt;
    }
  }

  const NANOSECOND := 0.000_000_001

  /** A duration of float seconds as a time.Duration: cut to whole nanoseconds. */
  function WholeNanos(wait: real): real { (wait / NANOSECOND).Floor as real * NANOSECOND }

  /** How long the bucket takes to reach one token; the rate is never zero. */
  function Wait(h: Host, tokens: real): real { if h.rate > 0.0 then (1.0 - tokens) / h.rate else 0.0 }

  /** `current` says whether the target row still has this host and generation. */
  ghost function Acquire(d: Desk, q: Request, current: bool): (Desk, Decision) {
    if !ValidRequest(q) then (d, Unserved)
    else if q.key in d.permits && d.permits[q.key].expiresAt > q.now then (d, Held(d.permits[q.key]))
    else if d.host.None? then (d, Unserved)
    else
      var h := d.host.value;
      var now := Max(h.clock, q.now);
      var live := Unexpired(d.permits, now);
      if !current then (d, Superseded)
      else if h.pausedUntil.Some? && h.pausedUntil.value > now then
        (d.(permits := live), Paused(h.pausedUntil.value))
      else
        var refilled := Refill(h, now);
        if |live| >= h.concurrency then
          (d.(host := Some(h.(tokens := refilled, clock := now)), permits := live), Busy(Earliest(live, now + q.ttl)))
        else if refilled < 1.0 then
          (d.(host := Some(h.(tokens := refilled, clock := now)), permits := live),
           Starved(now + WholeNanos(Wait(h, refilled))))
        else
          var id := d.lastPermit + 1;
          (Desk(Some(h.(tokens := refilled - 1.0, clock := now)), live[q.key := Permit(id, now + q.ttl)], id,
                d.grants + [now], d.calm),
           Granted(id, now + q.ttl))
  }

  function Released(d: Desk, id: nat): Desk {
    d.(permits := map k | k in d.permits && d.permits[k].id != id :: d.permits[k])
  }

  // ---- Observing ----

  function Halved(rate: real): real { if rate / 2.0 < FLOOR_RATE then FLOOR_RATE else rate / 2.0 }

  function Pause(h: Host, at: real, retryAfter: real): real {
    var pause := Max(QUARTER_HOUR, retryAfter);
    if h.last429.Some? && at - h.last429.value <= FULL_HOUR then Max(pause, FULL_HOUR) else pause
  }

  function Observed(host: Host, o: Observation): Host {
    var at := Max(host.clock, o.at);
    var h := host.(tokens := Min(Refill(host, at), host.burst as real), clock := at);
    match o.outcome
    case RateLimited =>
      h.(rate := Halved(h.rate), concurrency := 1, consecutive429s := h.consecutive429s + 1, last429 := Some(at),
         healthy := 0, pausedUntil := Some(at + Pause(h, at, o.retryAfter)))
    case AuthError => h.(healthy := 0, pausedUntil := Some(at + QUARTER_HOUR))
    case TransientError =>
      if o.failures == 3 then
        h.(rate := Halved(h.rate), concurrency := if h.concurrency - 1 < 1 then 1 else h.concurrency - 1, healthy := 0)
      else h.(healthy := 0)
    case _ =>
      if !Successful(o.outcome) then h.(healthy := 0)
      else
        var paused := if h.pausedUntil.Some? && h.pausedUntil.value > at then h.pausedUntil else None;
        if h.healthy + 1 >= 20 then
          h.(rate := Min(h.rate + FLOOR_RATE, h.baseRate), concurrency := Least(h.concurrency + 1, h.baseConcurrency),
             consecutive429s := 0, healthy := 0, pausedUntil := paused)
        else h.(consecutive429s := 0, healthy := h.healthy + 1, pausedUntil := paused)
  }

  function Watched(d: Desk, o: Observation): Desk {
    if d.host.None? then d
    else d.(host := Some(Observed(d.host.value, o)),
            calm := if o.outcome.RateLimited? then 0 else if Successful(o.outcome) then d.calm + 1 else d.calm)
  }

  // ---- The rows in place ----

  method FindEarliest(permits: map<Key, Permit>, otherwise: real) returns (at: real)
    ensures at == Earliest(permits, otherwise)
  {
    if permits == map[] { return otherwise; }
    var left := permits.Keys;
    var some: Key :| some in left;
    at := permits[some].expiresAt;
    while left != {}
      invariant left <= permits.Keys
      invariant exists k :: k in permits && permits[k].expiresAt == at
      invariant forall k :: k in permits && k !in left ==> at <= permits[k].expiresAt
      decreases left
    {
      var k :| k in left;
      left := left - {k};
      if permits[k].expiresAt < at { at := permits[k].expiresAt; }
    }
  }

  class HostGate {
    var host: Option<Host>
    var permits: map<Key, Permit>
    var lastPermit: nat
    ghost var grants: seq<real>
    ghost var calm: nat

    ghost function Rows(): Desk
      reads this
    {
      Desk(host, permits, lastPermit, grants, calm)
    }

    constructor ()
      ensures Rows() == Desk(None, map[], 0, [], 0)
    {
      host, permits, lastPermit, grants, calm := None, map[], 0, [], 0;
    }

    method SeedHost(s: HostSeed) returns (ok: bool)
      modifies this
      ensures ok <==> ValidHostSeed(s)
      ensures ok <==>
                && Trim(s.host) != "" && 0.25 <= s.rate <= 5.0 && 1 <= s.burst <= 5 && 1 <= s.concurrency <= 4
      ensures Rows() == if ok then old(Rows()).(host := Some(Seeded(old(host), s))) else old(Rows())
    {
      if Blank(s.host) || s.rate < FLOOR_RATE || s.rate > 5.0 { return false; }
      if s.burst < 1 || s.burst > 5 || s.concurrency < 1 || s.concurrency > 4 { return false; }
      host := Some(Seeded(host, s));
      return true;
    }

    method AcquireHostPermit(q: Request, current: bool) returns (r: Decision)
      modifies this
      ensures (Rows(), r) == Acquire(old(Rows()), q, current)
    {
      if !ValidRequest(q) { return Unserved; }
      if q.key in permits && permits[q.key].expiresAt > q.now { return Held(permits[q.key]); }
      if host.None? { return Unserved; }
      var h := host.value;
      var now := Max(h.clock, q.now);
      if !current { return Superseded; }
      permits := Unexpired(permits, now);
      if h.pausedUntil.Some? && h.pausedUntil.value > now { return Paused(h.pausedUntil.value); }
      var refilled := Refill(h, now);
      if |permits| >= h.concurrency {
        host := Some(h.(tokens := refilled, clock := now));
        var retryAt := FindEarliest(permits, now + q.ttl);
        return Busy(retryAt);
      }
      if refilled < 1.0 {
        host := Some(h.(tokens := refilled, clock := now));
        return Starved(now + WholeNanos(Wait(h, refilled)));
      }
      host := Some(h.(tokens := refilled - 1.0, clock := now));
      lastPermit := lastPermit + 1;
      permits := permits[q.key := Permit(lastPermit, now + q.ttl)];
      grants := grants + [now];
      return Granted(lastPermit, now + q.ttl);
    }

    method ReleaseHostPermit(id: nat)
      modifies this
      ensures Rows() == Released(old(Rows()), id)
    {
      permits := map k | k in permits && permits[k].id != id :: permits[k];
    }

    method ObserveHost(o: Observation) returns (known: bool)
      modifies this
      ensures known == old(host).Some? && Rows() == Watched(old(Rows()), o)
    {
      if host.None? { return false; }
      host := Some(Observed(host.value, o));
      if o.outcome.RateLimited? { calm := 0; } else if Successful(o.outcome) { calm := calm + 1; }
      return true;
    }
  }

  // ---- Runs ----

  /** `Expiring` is the deletion of expired permits by retention. */
  datatype DeskStep =
    | Seeding(seed: HostSeed)
    | Acquiring(request: Request, current: bool)
    | Releasing(id: nat)
    | Expiring(now: real)
    | Observing(observation: Observation)

  ghost function DeskNext(d: Desk, step: DeskStep): Desk {
    match step
    case Seeding(s) => if ValidHostSeed(s) then d.(host := Some(Seeded(d.host, s))) else d
    case Acquiring(q, current) => Acquire(d, q, current).0
    case Releasing(id) => Released(d, id)
    case Expiring(now) => d.(permits := Unexpired(d.permits, now))
    case Observing(o) => Watched(d, o)
  }

  ghost function DeskAfter(steps: seq<DeskStep>): Desk {
    if steps == [] then Desk(None, map[], 0, [], 0)
    else DeskNext(DeskAfter(steps[..|steps| - 1]), steps[|steps| - 1])
  }

  /** Every configuration seeded during the run stays within these baselines. */
  ghost predicate SeedsWithin(steps: seq<DeskStep>, burst: nat, rate: real, concurrency: nat) {
    forall i :: 0 <= i < |steps| ==> StepWithin(steps[i], burst, rate, concurrency)
  }

  predicate StepWithin(step: DeskStep, burst: nat, rate: real, concurrency: nat) {
    step.Seeding? && ValidHostSeed(step.seed) ==>
      step.seed.burst <= burst && step.seed.rate <= rate && step.seed.concurrency <= concurrency
  }

  // ---- Limits ----

  predicate HostSound(h: Host) {
    && 0.0 <= h.tokens <= h.burst as real && 1 <= h.burst <= 5
    && FLOOR_RATE <= h.rate <= h.baseRate <= 5.0
    && 1 <= h.concurrency <= h.baseConcurrency <= 4
    && h.healthy < 20
    && (h.last429.Some? ==>
          && h.last429.value <= h.clock
          && (h.clock >= h.last429.value + QUARTER_HOUR
              || (h.pausedUntil.Some? && h.pausedUntil.value >= h.last429.value + QUARTER_HOUR)))
  }

  predicate Within(h: Host, burst: nat, rate: real, concurrency: nat) {
    h.burst <= burst && h.baseRate <= rate && h.baseConcurrency <= concurrency
  }

  /** What a rate accrues by a time; only differences mean anything. */
  function Credit(rate: real, at: real): real { rate * at }

  lemma CreditGrows(slow: real, rate: real, a: real, b: real)
    requires 0.0 <= slow <= rate && a <= b
    ensures 0.0 <= (b - a) * slow <= Credit(rate, b) - Credit(rate, a)
  {
    assert Credit(rate, b) - Credit(rate, a) == (b - a) * rate;
    assert (b - a) * rate - (b - a) * slow == (b - a) * (rate - slow);
  }

  lemma RefillBounds(h: Host, now: real, cap: real)
    requires 0.0 <= h.tokens <= h.burst as real && 0.0 <= h.rate <= cap && now >= h.clock
    ensures 0.0 <= Refill(h, now) <= h.burst as real
    ensures Refill(h, now) <= h.tokens + Credit(cap, now) - Credit(cap, h.clock)
  {
    CreditGrows(h.rate, cap, h.clock, now);
  }

  function Score(h: Host): int { 20 * (h.concurrency - 1) + h.healthy }

  lemma ObservedSound(h: Host, o: Observation)
    requires HostSound(h)
    ensures var h' := Observed(h, o);
            && HostSound(h') && h'.clock >= h.clock && h'.burst == h.burst && h'.baseRate == h.baseRate
            && h'.baseConcurrency == h.baseConcurrency && h'.tokens == Refill(h, h'.clock)
            && (o.outcome.RateLimited? ==> h'.concurrency == 1 && h'.healthy == 0)
            && (!o.outcome.RateLimited? ==> Score(h') <= Score(h) + if Successful(o.outcome) then 1 else 0)
            && (!o.outcome.RateLimited? ==> h'.last429 == h.last429)
  {
    RefillBounds(h, Max(h.clock, o.at), h.rate);
  }

  /** After a 429 each further unit of concurrency costs twenty later successes. */
  predicate Earned(d: Desk) {
    d.host.Some? && d.host.value.last429.Some? ==> Score(d.host.value) <= d.calm
  }

  ghost predicate DeskSound(d: Desk, burst: nat, rate: real, concurrency: nat) {
    && (d.host.Some? ==> HostSound(d.host.value) && Within(d.host.value, burst, rate, concurrency))
    && (d.host.None? ==> d.permits == map[] && d.grants == [])
    && Earned(d)
    && |d.permits| <= concurrency
  }

  lemma FewerPermits(a: map<Key, Permit>, b: map<Key, Permit>)
    requires a.Keys <= b.Keys
    ensures |a| <= |b|
  {
    SubsetCount(a.Keys, b.Keys);
  }

  lemma {:induction false} SubsetCount(a: set<Key>, b: set<Key>)
    requires a <= b
    ensures |a| <= |b|
    decreases b
  {
    if b != {} {
      var x :| x in b;
      SubsetCount(a - {x}, b - {x});
    }
  }

  lemma AcquireSound(d: Desk, q: Request, current: bool, burst: nat, rate: real, concurrency: nat)
    requires DeskSound(d, burst, rate, concurrency)
    ensures DeskSound(Acquire(d, q, current).0, burst, rate, concurrency)
  {
    if d.host.Some? {
      var h := d.host.value;
      var now := Max(h.clock, q.now);
      RefillBounds(h, now, h.rate);
      FewerPermits(Unexpired(d.permits, now), d.permits);
    }
  }

  lemma DeskStepSound(d: Desk, step: DeskStep, burst: nat, rate: real, concurrency: nat)
    requires DeskSound(d, burst, rate, concurrency)
    requires StepWithin(step, burst, rate, concurrency)
    ensures DeskSound(DeskNext(d, step), burst, rate, concurrency)
  {
    match step {
      case Seeding(_) =>
      case Acquiring(q, current) => AcquireSound(d, q, current, burst, rate, concurrency);
      case Releasing(id) => FewerPermits(Released(d, id).permits, d.permits);
      case Expiring(now) => FewerPermits(Unexpired(d.permits, now), d.permits);
      case Observing(o) => if d.host.Some? { ObservedSound(d.host.value, o); }
    }
  }

  lemma {:induction false} RunsSound(steps: seq<DeskStep>, burst: nat, rate: real, concurrency: nat)
    requires SeedsWithin(steps, burst, rate, concurrency)
    ensures DeskSound(DeskAfter(steps), burst, rate, concurrency)
  {
    if steps != [] {
      var n := |steps| - 1;
      assert SeedsWithin(steps[..n], burst, rate, concurrency);
      RunsSound(steps[..n], burst, rate, concurrency);
      DeskStepSound(DeskAfter(steps[..n]), steps[n], burst, rate, concurrency);
    }
  }

  /** In every run the rate stays within [0.25, baseline], concurrency within [1, baseline] and tokens within
      [0, burst], and the permit rows never outnumber the largest baseline concurrency seeded. */
  lemma {:induction false} LimitsHold(steps: seq<DeskStep>, burst: nat, rate: real, concurrency: nat)
    requires SeedsWithin(steps, burst, rate, concurrency)
    ensures var d := DeskAfter(steps);
            && |d.permits| <= concurrency
            && (d.host.Some? ==>
                  var h := d.host.value;
                  && 0.25 <= h.rate <= h.baseRate <= rate && 1 <= h.concurrency <= h.baseConcurrency <= concurrency
                  && 0.0 <= h.tokens <= h.burst as real)
  {
    RunsSound(steps, burst, rate, concurrency);
  }

  /** The successes observed since the last 429. */
  function SuccessesSince429(steps: seq<DeskStep>): nat {
    if steps == [] then 0
    else
      var earlier, last := SuccessesSince429(steps[..|steps| - 1]), steps[|steps| - 1];
      if !last.Observing? then earlier
      else if last.observation.outcome == RateLimited then 0
      else earlier + if last.observation.outcome in {Changed, Unchanged, NotModified} then 1 else 0
  }

  lemma {:induction false} CalmCounts(steps: seq<DeskStep>)
    ensures DeskAfter(steps).calm <= SuccessesSince429(steps)
    ensures DeskAfter(steps).host.None? ==> DeskAfter(steps).calm == 0
  {
    if steps != [] { CalmCounts(steps[..|steps| - 1]); }
  }

  /** Concurrency cannot reach k + 1 after a 429 without at least 20k later successes. */
  lemma {:induction false} RecoveryIsEarned(steps: seq<DeskStep>, k: nat)
    requires DeskAfter(steps).host.Some? && DeskAfter(steps).host.value.last429.Some?
    requires DeskAfter(steps).host.value.concurrency >= k + 1
    ensures SuccessesSince429(steps) >= 20 * k
  {
    RunsSound(steps, 5, 5.0, 4);
    CalmCounts(steps);
  }

  /** No permit is granted within fifteen minutes of host-clock time after a 429, whatever else is observed. */
  lemma {:induction false} CoolOff(steps: seq<DeskStep>, q: Request, current: bool)
    requires Acquire(DeskAfter(steps), q, current).1.Granted?
    ensures var h, d := DeskAfter(steps).host.value, Acquire(DeskAfter(steps), q, current).0;
            h.last429.Some? ==> d.grants[|d.grants| - 1] >= h.last429.value + 900.0
  {
    RunsSound(steps, 5, 5.0, 4);
  }

  /** A starved request is told the last whole nanosecond before the bucket holds one token, so a retry then is
      short by less than one nanosecond's refill. It finds the whole token exactly when the wait is a whole number
      of nanoseconds. */
  lemma {:induction false} RetryTimeIsExact(steps: seq<DeskStep>, q: Request, current: bool)
    requires Acquire(DeskAfter(steps), q, current).1.Starved?
    ensures var (d, r) := Acquire(DeskAfter(steps), q, current);
            ToldInTime(d.host.value, r.retryAt)
  {
    RunsSound(steps, 5, 5.0, 4);
    var h := DeskAfter(steps).host.value;
    RefillBounds(h, Max(h.clock, q.now), h.rate);
    var (d, r) := Acquire(DeskAfter(steps), q, current);
    AlmostWholeToken(d.host.value, r.retryAt);
  }

  predicate ToldInTime(h: Host, retryAt: real) {
    && h.clock <= retryAt
    && 1.0 - h.rate * NANOSECOND < Refill(h, retryAt) <= 1.0
    && (Refill(h, retryAt) == 1.0 <==> WholeNanos(Wait(h, h.tokens)) == Wait(h, h.tokens))
  }

  lemma NanosBounds(wait: real)
    requires wait >= 0.0
    ensures 0.0 <= WholeNanos(wait) <= wait < WholeNanos(wait) + NANOSECOND
  {
  }

  lemma Scaled(rate: real, a: real, b: real)
    requires rate > 0.0
    ensures (b - a) * rate == b * rate - a * rate
    ensures a < b ==> a * rate < b * rate
    ensures a == b ==> a * rate == b * rate
  {
    var gap := b - a;
    assert gap > 0.0 ==> gap * rate > 0.0;
    assert gap * rate == b * rate - a * rate;
  }

  lemma WaitPays(h: Host)
    requires h.rate > 0.0 && h.tokens < 1.0
    ensures Wait(h, h.tokens) > 0.0 && Wait(h, h.tokens) * h.rate == 1.0 - h.tokens
  {
  }

  lemma ToldTokens(rate: real, tokens: real, wait: real, told: real)
    requires rate > 0.0 && wait * rate == 1.0 - tokens && 0.0 <= told <= wait < told + NANOSECOND
    ensures 0.0 <= told * rate && 1.0 - rate * NANOSECOND < tokens + told * rate <= 1.0
    ensures tokens + told * rate == 1.0 <==> told == wait
  {
    Scaled(rate, told, wait);
    Scaled(rate, 0.0, told);
    Scaled(rate, wait, told + NANOSECOND);
    Scaled(rate, told, told + NANOSECOND);
  }

  lemma ToldRefill(h: Host, wait: real, told: real)
    requires 0.0 <= h.tokens < 1.0 <= h.burst as real && h.rate > 0.0
    requires wait * h.rate == 1.0 - h.tokens && 0.0 <= told <= wait < told + NANOSECOND
    ensures 1.0 - h.rate * NANOSECOND < Refill(h, h.clock + told) <= 1.0
    ensures Refill(h, h.clock + told) == 1.0 <==> told == wait
  {
    ToldTokens(h.rate, h.tokens, wait, told);
    RefillAfter(h, told, told * h.rate);
  }

  /** What a wait refills, short of the burst. */
  lemma RefillAfter(h: Host, told: real, gained: real)
    requires 0.0 <= h.tokens && 0.0 <= told && gained == told * h.rate && 0.0 <= gained
    requires h.tokens + gained <= 1.0 <= h.burst as real
    ensures Refill(h, h.clock + told) == h.tokens + gained
  {
    assert h.clock + told - h.clock == told;
  }

  lemma AlmostWholeToken(h: Host, retryAt: real)
    requires 0.0 <= h.tokens < 1.0 <= h.burst as real && h.rate > 0.0
    requires retryAt == h.clock + WholeNanos(Wait(h, h.tokens))
    ensures ToldInTime(h, retryAt)
  {
    WaitPays(h);
    NanosBounds(Wait(h, h.tokens));
    ToldRefill(h, Wait(h, h.tokens), WholeNanos(Wait(h, h.tokens)));
  }

  lemma ThirdOfASecond(h: Host)
    requires h.tokens == 0.0 && h.rate == 3.0 && h.burst >= 1
    ensures WholeNanos(Wait(h, h.tokens)) == 0.333_333_333
    ensures Refill(h, h.clock + WholeNanos(Wait(h, h.tokens))) == 0.999_999_999
  {
    assert Wait(h, h.tokens) == 1.0 / 3.0;
    assert (1.0 / 3.0 / NANOSECOND).Floor == 333_333_333;
  }

  const FIRST_REQUEST := Request("h", "w", Key(1, 1), 0.0, 1.0)
  const NEXT_REQUEST := Request("h", "w", Key(2, 1), 0.0, 1.0)

  /** Three requests a second, a bucket of one token, and one permit granted. */
  function OneGrant(): seq<DeskStep> {
    [Seeding(HostSeed("h", 3.0, 1, 2, 0.0)), Acquiring(FIRST_REQUEST, true)]
  }

  function DrainedHost(): Host { Host(3.0, 3.0, 1, 0.0, 0.0, 2, 2, 0, None, 0, None) }

  function DrainedDesk(): Desk {
    Desk(Some(DrainedHost()), map[Key(1, 1) := Permit(1, 1.0)], 1, [0.0], 0)
  }

  lemma GrantDrains()
    ensures DeskAfter(OneGrant()) == DrainedDesk()
  {
    var steps := OneGrant();
    var seeded := Desk(Some(DrainedHost().(tokens := 1.0)), map[], 0, [], 0);
    assert steps[..1] == [steps[0]] && steps[..1][..0] == [];
    assert DeskAfter(steps[..1]) == DeskNext(DeskAfter(steps[..1][..0]), steps[0]) == seeded;
    assert DeskAfter(steps) == DeskNext(seeded, steps[1]);
    assert Unexpired(map[], 0.0) == map[];
  }

  /** With one live permit, an empty bucket and room for a second request, only the tokens decide. */
  lemma DrainedStarves(now: real)
    requires 0.0 <= now < 1.0 / 3.0
    ensures var (d, r) := Acquire(DrainedDesk(), NEXT_REQUEST.(now := now), true);
            && r == Starved(now + WholeNanos(Wait(DrainedHost(), 3.0 * now)))
            && d == DrainedDesk().(host := Some(DrainedHost().(tokens := 3.0 * now, clock := now)))
  {
    assert Unexpired(DrainedDesk().permits, now) == DrainedDesk().permits;
    assert Refill(DrainedHost(), now) == 3.0 * now;
  }

  /** The cut is felt: in this run a second request is starved and told 333333333 nanoseconds, and at that very
      moment it is starved again, a billionth of a token short. */
  lemma RetryMayStarveAgain()
    ensures var (d, r) := Acquire(DeskAfter(OneGrant()), NEXT_REQUEST, true);
            && r == Starved(0.333_333_333)
            && var (d', r') := Acquire(d, NEXT_REQUEST.(now := 0.333_333_333), true);
               r'.Starved? && d'.host.Some? && d'.host.value.tokens == 0.999_999_999
  {
    GrantDrains();
    DrainedStarves(0.0);
    assert NEXT_REQUEST.(now := 0.0) == NEXT_REQUEST;
    ThirdOfASecond(DrainedHost());
    assert DrainedDesk().(host := Some(DrainedHost().(tokens := 0.0, clock := 0.0))) == DrainedDesk();
    DrainedStarves(0.333_333_333);
  }

  /** A request refused for concurrency is told when the first of the live permits expires: until then all of them
      stay, and then at least one is gone. */
  lemma {:induction false} BusyRetryFrees(d: Desk, q: Request, current: bool)
    requires Acquire(d, q, current).1.Busy? && d.host.value.concurrency >= 1
    ensures var (d', r) := Acquire(d, q, current);
            && (forall at :: at < r.retryAt ==> Unexpired(d'.permits, at) == d'.permits)
            && |Unexpired(d'.permits, r.retryAt)| < |d'.permits|
  {
    var (d', r) := Acquire(d, q, current);
    assert d'.permits != map[];
    var k :| k in d'.permits && d'.permits[k].expiresAt == r.retryAt;
    var left := Unexpired(d'.permits, r.retryAt);
    assert k !in left && left.Keys <= d'.permits.Keys - {k};
    SubsetCount(left.Keys, d'.permits.Keys - {k});
    assert |left| == |left.Keys| && |d'.permits| == |d'.permits.Keys|;
  }

  // ---- The window bound ----

  /** From any grant on, the grants so far and the tokens left are paid for by one bucket and the rate since. */
  ghost predicate Paid(d: Desk, burst: nat, rate: real) {
    d.host.Some? ==>
      forall i :: 0 <= i < |d.grants| ==>
        && d.grants[i] <= d.host.value.clock
        && (|d.grants| - i) as real + d.host.value.tokens
           <= burst as real + Credit(rate, d.host.value.clock) - Credit(rate, d.grants[i])
  }

  ghost predicate Spaced(grants: seq<real>, burst: nat, rate: real) {
    forall i, j :: 0 <= i <= j < |grants| ==>
      && grants[i] <= grants[j]
      && (j - i + 1) as real <= burst as real + Credit(rate, grants[j]) - Credit(rate, grants[i])
  }

  /** The clock moves forward and the tokens grow no faster than the rate. */
  ghost predicate Flows(h: Host, h': Host, rate: real) {
    h'.clock >= h.clock && h'.tokens <= h.tokens + Credit(rate, h'.clock) - Credit(rate, h.clock)
  }

  lemma FlowKeepsPaid(d: Desk, d': Desk, burst: nat, rate: real)
    requires Paid(d, burst, rate) && d'.grants == d.grants
    requires d.host.Some? && d'.host.Some? && Flows(d.host.value, d'.host.value, rate)
    ensures Paid(d', burst, rate)
  {
  }

  lemma GrantKeepsPaid(d: Desk, d': Desk, burst: nat, rate: real, refilled: real)
    requires Paid(d, burst, rate) && Spaced(d.grants, burst, rate) && d.host.Some? && d'.host.Some?
    requires var h, h' := d.host.value, d'.host.value;
             && Flows(h, h'.(tokens := refilled), rate) && h'.tokens == refilled - 1.0 && 0.0 <= h'.tokens
             && refilled <= burst as real && d'.grants == d.grants + [h'.clock]
    ensures Paid(d', burst, rate) && Spaced(d'.grants, burst, rate)
  {
    var h, h', n := d.host.value, d'.host.value, |d.grants|;
    forall i | 0 <= i <= n
      ensures d'.grants[i] <= h'.clock
      ensures (n + 1 - i) as real + h'.tokens <= burst as real + Credit(rate, h'.clock) - Credit(rate, d'.grants[i])
    {
      if i < n { assert d'.grants[i] == d.grants[i]; }
    }
    forall i, j | 0 <= i <= j <= n
      ensures d'.grants[i] <= d'.grants[j]
      ensures (j - i + 1) as real <= burst as real + Credit(rate, d'.grants[j]) - Credit(rate, d'.grants[i])
    {
      if j < n { assert d'.grants[i] == d.grants[i] && d'.grants[j] == d.grants[j]; }
    }
  }

  lemma AcquirePaid(d: Desk, q: Request, current: bool, burst: nat, rate: real, concurrency: nat)
    requires DeskSound(d, burst, rate, concurrency) && Paid(d, burst, rate) && Spaced(d.grants, burst, rate)
    ensures var d' := Acquire(d, q, current).0; Paid(d', burst, rate) && Spaced(d'.grants, burst, rate)
  {
    var (d', r) := Acquire(d, q, current);
    if d.host.Some? {
      var h := d.host.value;
      var now := Max(h.clock, q.now);
      RefillBounds(h, now, rate);
      if r.Granted? {
        GrantKeepsPaid(d, d', burst, rate, Refill(h, now));
      } else {
        FlowKeepsPaid(d, d', burst, rate);
      }
    }
  }

  lemma DeskStepPaid(d: Desk, step: DeskStep, burst: nat, rate: real, concurrency: nat)
    requires DeskSound(d, burst, rate, concurrency) && StepWithin(step, burst, rate, concurrency)
    requires Paid(d, burst, rate) && Spaced(d.grants, burst, rate)
    ensures var d' := DeskNext(d, step); Paid(d', burst, rate) && Spaced(d'.grants, burst, rate)
  {
    if step.Acquiring? {
      AcquirePaid(d, step.request, step.current, burst, rate, concurrency);
    } else if d.host.Some? {
      if step.Observing? { ObservingFlows(d.host.value, step.observation, rate); }
      FlowKeepsPaid(d, DeskNext(d, step), burst, rate);
    }
  }

  lemma ObservingFlows(h: Host, o: Observation, rate: real)
    requires HostSound(h) && h.baseRate <= rate
    ensures Flows(h, Observed(h, o), rate)
  {
    ObservedSound(h, o);
    RefillBounds(h, Observed(h, o).clock, rate);
  }

  lemma {:induction false} RunsPaid(steps: seq<DeskStep>, burst: nat, rate: real, concurrency: nat)
    requires SeedsWithin(steps, burst, rate, concurrency)
    ensures Paid(DeskAfter(steps), burst, rate) && Spaced(DeskAfter(steps).grants, burst, rate)
  {
    if steps != [] {
      var n := |steps| - 1;
      assert SeedsWithin(steps[..n], burst, rate, concurrency);
      RunsPaid(steps[..n], burst, rate, concurrency);
      RunsSound(steps[..n], burst, rate, concurrency);
      DeskStepPaid(DeskAfter(steps[..n]), steps[n], burst, rate, concurrency);
    }
  }

  /** The number of logged grants with host-clock time in [a, b]. */
  function GrantsBetween(grants: seq<real>, a: real, b: real): nat {
    if grants == [] then 0
    else
      var last := grants[|grants| - 1];
      GrantsBetween(grants[..|grants| - 1], a, b) + if a <= last <= b then 1 else 0
  }

  /** In a nondecreasing log the grants of a window are consecutive. */
  lemma {:induction false} WindowIsInterval(grants: seq<real>, a: real, b: real) returns (i: nat, n: nat)
    requires forall i, j :: 0 <= i <= j < |grants| ==> grants[i] <= grants[j]
    ensures n == GrantsBetween(grants, a, b) && i + n <= |grants|
    ensures forall k :: i <= k < i + n ==> a <= grants[k] <= b
    ensures forall k :: i + n <= k < |grants| ==> grants[k] > b || n == 0
  {
    if grants == [] { return 0, 0; }
    var m := |grants| - 1;
    i, n := WindowIsInterval(grants[..m], a, b);
    assert forall k :: 0 <= k < m ==> grants[k] == grants[..m][k];
    if a <= grants[m] <= b {
      if n == 0 { return m, 1; }
      return i, n + 1;
    }
  }

  /** The window bound: in any run, with timestamps in any order, new permits between host-clock times a and b
      number at most one burst plus the largest seeded baseline rate times b - a. */
  lemma {:induction false} WindowBound(steps: seq<DeskStep>, burst: nat, rate: real, concurrency: nat, a: real, b: real)
    requires SeedsWithin(steps, burst, rate, concurrency) && a <= b && rate >= 0.0
    ensures GrantsBetween(DeskAfter(steps).grants, a, b) as real <= burst as real + rate * (b - a)
  {
    RunsPaid(steps, burst, rate, concurrency);
    var grants := DeskAfter(steps).grants;
    var i, n := WindowIsInterval(grants, a, b);
    if n > 0 { assert grants[i + n - 1] <= b; }
    FitsWindow(grants, burst, rate, i, n, a, b);
  }

  lemma FitsWindow(grants: seq<real>, burst: nat, rate: real, i: nat, n: nat, a: real, b: real)
    requires Spaced(grants, burst, rate) && i + n <= |grants| && a <= b && rate >= 0.0
    requires n > 0 ==> a <= grants[i] && grants[i + n - 1] <= b
    ensures n as real <= burst as real + rate * (b - a)
  {
    CreditGrows(0.0, rate, a, b);
    CreditDifference(rate, a, b);
    if n > 0 {
      CreditGrows(0.0, rate, a, grants[i]);
      CreditGrows(0.0, rate, grants[i + n - 1], b);
    }
  }

  lemma CreditDifference(rate: real, a: real, b: real)
    ensures rate * (b - a) == Credit(rate, b) - Credit(rate, a)
  {
  }

  /** The bucket clock never moves back. */
  lemma {:induction false} ClockIsMonotone(steps: seq<DeskStep>, step: DeskStep)
    requires DeskAfter(steps).host.Some?
    ensures DeskNext(DeskAfter(steps), step).host.Some?
    ensures DeskNext(DeskAfter(steps), step).host.value.clock >= DeskAfter(steps).host.value.clock
  {
    RunsSound(steps, 5, 5.0, 4);
    if step.Observing? { ObservedSound(DeskAfter(steps).host.value, step.observation); }
  }
}
