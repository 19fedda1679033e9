/** What observations do to a host: how far a failure backs off, and how a run of successes leads back. */
module HostHealth {
  import opened Domain
  import opened HostAdmission

  /** The time an observation counts from: never before the host clock. */
  function SeenAt(h: Host, o: Observation): real { if o.at < h.clock then h.clock else o.at }

  /** The later clock and the tokens that flowed in, whatever was observed; the configuration is not touched. */
  predicate BucketMoved(h: Host, at: real, h': Host) {
    && h'.clock == at && h'.tokens == Refill(h, at)
    && h'.baseRate == h.baseRate && h'.burst == h.burst && h'.baseConcurrency == h.baseConcurrency
  }

  /** Half the rate, but never below a quarter request a second. */
  predicate RateHalved(rate: real, rate': real) {
    rate' >= 0.25 && rate' >= rate / 2.0 && (rate' == 0.25 || rate' == rate / 2.0)
  }

  /** How long a 429 pauses the host: a quarter of an hour, an hour if the last one was within an hour, and no less
      than the server asked for. */
  predicate PauseAfter429(h: Host, at: real, retryAfter: real, pause: real) {
    var recent := h.last429.Some? && at <= h.last429.value + 3600.0;
    && pause >= 900.0 && pause >= retryAfter && (recent ==> pause >= 3600.0)
    && (pause == 900.0 || pause == retryAfter || (recent && pause == 3600.0))
  }

  predicate BacksOff(h: Host, o: Observation, h': Host) {
    var at := SeenAt(h, o);
    && h'.healthy == 0
    && (if o.outcome.RateLimited? then
          && h'.concurrency == 1 && RateHalved(h.rate, h'.rate) && h'.last429 == Some(at)
          && h'.consecutive429s == h.consecutive429s + 1
          && h'.pausedUntil.Some? && PauseAfter429(h, at, o.retryAfter, h'.pausedUntil.value - at)
        else
          && h'.last429 == h.last429 && h'.consecutive429s == h.consecutive429s
          && h'.pausedUntil == (if o.outcome.AuthError? then Some(at + 900.0) else h.pausedUntil)
          && (if o.outcome.TransientError? && o.failures == 3 then
                RateHalved(h.rate, h'.rate) && h'.concurrency == (if h.concurrency <= 2 then 1 else h.concurrency - 1)
              else h'.rate == h.rate && h'.concurrency == h.concurrency))
  }

  /** A success ends a pause that is over and lengthens the streak; the twentieth in a row raises rate and concurrency
      by a step, at most to the baseline, and starts the streak again. */
  predicate Recovers(h: Host, o: Observation, h': Host) {
    var at, step := SeenAt(h, o), h.healthy == 19;
    && h'.last429 == h.last429 && h'.consecutive429s == 0
    && h'.pausedUntil == (if h.pausedUntil.Some? && h.pausedUntil.value <= at then None else h.pausedUntil)
    && h'.healthy == (if step then 0 else h.healthy + 1)
    && h'.rate == (if !step then h.rate else if h.rate + 0.25 <= h.baseRate then h.rate + 0.25 else h.baseRate)
    && h'.concurrency ==
       (if !step then h.concurrency
        else if h.concurrency < h.baseConcurrency then h.concurrency + 1 else h.baseConcurrency)
  }

  /** One observation in numbers. */
  lemma ObservationEffect(h: Host, o: Observation)
    requires HostSound(h)
    ensures var h' := Observed(h, o);
            && BucketMoved(h, SeenAt(h, o), h')
            && (if o.outcome.Changed? || o.outcome.Unchanged? || o.outcome.NotModified? then Recovers(h, o, h')
                else BacksOff(h, o, h'))
  {
    RefillBounds(h, SeenAt(h, o), h.rate);
  }

  // ---- A run of successes ----

  function ObservedAll(h: Host, os: seq<Observation>): Host {
    if os == [] then h else Observed(ObservedAll(h, os[..|os| - 1]), os[|os| - 1])
  }

  function Capped(x: real, cap: real): real { if x <= cap then x else cap }

  /** The way back in closed form: `steps` is the number of completed streaks of twenty. */
  lemma {:induction false} StreaksLeadBack(h: Host, os: seq<Observation>)
    requires HostSound(h) && forall n :: 0 <= n < |os| ==> Successful(os[n].outcome)
    ensures var h', steps := ObservedAll(h, os), (h.healthy + |os|) / 20;
            && HostSound(h') && h'.baseRate == h.baseRate && h'.baseConcurrency == h.baseConcurrency
            && h'.healthy == (h.healthy + |os|) % 20
            && h'.rate == Capped(h.rate + 0.25 * steps as real, h.baseRate)
            && h'.concurrency ==
               (if h.concurrency + steps <= h.baseConcurrency then h.concurrency + steps else h.baseConcurrency)
  {
    if os != [] {
      var earlier := os[..|os| - 1];
      StreaksLeadBack(h, earlier);
      ObservationEffect(ObservedAll(h, earlier), os[|os| - 1]);
      ObservedSound(ObservedAll(h, earlier), os[|os| - 1]);
    }
  }

  /** From any state of any run, 380 successes in a row restore the seeded rate and concurrency. */
  lemma {:induction false} SuccessesRestore(steps: seq<DeskStep>, os: seq<Observation>)
    requires DeskAfter(steps).host.Some? && |os| >= 380 && forall n :: 0 <= n < |os| ==> Successful(os[n].outcome)
    ensures var h := DeskAfter(steps).host.value;
            var h' := ObservedAll(h, os);
            h'.rate == h.baseRate && h'.concurrency == h.baseConcurrency
  {
    RunsSound(steps, 5, 5.0, 4);
    var h := DeskAfter(steps).host.value;
    StreaksLeadBack(h, os);
    assert (h.healthy + |os|) / 20 >= 19;
  }

  // ---- Seeding ----

  /** A first seed starts full at its baseline; a later one moves the baselines and only ever lowers what is current. */
  lemma SeedingEffect(host: Option<Host>, s: HostSeed)
    requires ValidHostSeed(s)
    ensures var h := Seeded(host, s);
            && h.baseRate == s.rate && h.burst == s.burst && h.baseConcurrency == s.concurrency
            && (host.None? ==>
                  && h.rate == s.rate && h.tokens == s.burst as real && h.clock == s.now
                  && h.concurrency == s.concurrency && h.consecutive429s == 0 && h.last429 == None
                  && h.healthy == 0 && h.pausedUntil == None)
            && (host.Some? ==>
                  var was := host.value;
                  && h.rate <= was.rate && h.rate <= s.rate && (h.rate == was.rate || h.rate == s.rate)
                  && h.tokens <= was.tokens && h.tokens <= s.burst as real
                  && (h.tokens == was.tokens || h.tokens == s.burst as real)
                  && h.concurrency <= was.concurrency && h.concurrency <= s.concurrency
                  && (h.concurrency == was.concurrency || h.concurrency == s.concurrency)
                  && h.clock == was.clock && h.consecutive429s == was.consecutive429s && h.last429 == was.last429
                  && h.healthy == was.healthy && h.pausedUntil == was.pausedUntil)
  {
  }
}
