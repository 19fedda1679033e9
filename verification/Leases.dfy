/** A lease lasts: from a successful claim on, nobody else takes the target before the expiry the claim, or the
    latest renewal of its owner, has set. Stated in times only. */
module Leases {
  import opened Domain
  import opened Policy
  import opened Repository
  import opened Fencing

  /** The claim went through: the row has a new owner and the next generation. */
  predicate Taken(s: System, s': System, t: int, worker: string) {
    && t in s.store.targets && t in s'.store.targets
    && s'.store.targets[t].lease.generation == s.store.targets[t].lease.generation + 1
    && s'.store.targets[t].lease.owner == Some(worker)
  }

  /** The row is leased to this worker under this generation until then. */
  predicate LeasedUntil(s: System, t: int, worker: string, generation: nat, until: int) {
    t in s.store.targets && s.store.targets[t].lease == Lease(Some(worker), generation, Some(until))
  }

  /** A renewal by the owner. It always takes effect while the lease is held. */
  predicate Renews(step: Step, t: int, worker: string, generation: nat) {
    step.Renew? && step.id == t && step.worker == worker && step.generation == generation && step.lease > 0
  }

  /** The expiry after these steps: that of the last renewal, or the one at the start. */
  function Expiry(until: int, steps: seq<Step>, t: int, worker: string, generation: nat): int {
    if steps == [] then until
    else Extended(Expiry(until, steps[..|steps| - 1], t, worker, generation), steps[|steps| - 1], t, worker, generation)
  }

  function Extended(until: int, step: Step, t: int, worker: string, generation: nat): int {
    if Renews(step, t, worker, generation) then step.now + step.lease / SECOND * SECOND else until
  }

  /** The step does not end this lease: it is no release or rescheduling of this generation, no accepted commit of it,
      no repair later than an hour past the expiry, and no claim at or after the expiry. */
  ghost predicate Spares(s: System, step: Step, t: int, generation: nat, until: int) {
    && (step.Release? || step.Reschedule? ==> step.id != t || step.generation != generation)
    && (step.Lock? ==> KeyOf(step.input) != Key(t, generation) || !Accepts(s.store, step.input))
    && (step.Repair? ==> step.id != t || step.now <= until + 3600 * SECOND)
    && (step.Claim? ==> step.id != t || step.now < until)
  }

  ghost predicate SparedRun(s: System, steps: seq<Step>, t: int, worker: string, generation: nat, until: int) {
    if steps == [] then true
    else
      var earlier := steps[..|steps| - 1];
      && SparedRun(s, earlier, t, worker, generation, until)
      && Spares(After(s, earlier), steps[|steps| - 1], t, generation, Expiry(until, earlier, t, worker, generation))
  }

  lemma SparedStep(s: System, step: Step, t: int, worker: string, generation: nat, until: int)
    requires LeasedUntil(s, t, worker, generation, until) && Spares(s, step, t, generation, until)
    requires t > 0 && generation > 0 && !Blank(worker)
    ensures LeasedUntil(Next(s, step), t, worker, generation, Extended(until, step, t, worker, generation))
  {
    if step.Lock? && Accepts(s.store, step.input) {
      AcceptedLeases(s.store, step.input, t);
    }
  }

  /** A commit releases the lease of its own row and touches no other lease. */
  lemma AcceptedLeases(s: Store, i: CommitInput, t: int)
    requires Accepts(s, i) && t in s.targets
    ensures t in CommitLocked(s, i).0.targets
    ensures CommitLocked(s, i).0.targets[t].lease ==
            if t == i.target then Lease(None, i.generation, None) else s.targets[t].lease
  {
  }

  lemma {:induction false} LeaseLasts(s: System, steps: seq<Step>, t: int, worker: string, generation: nat, until: int)
    requires LeasedUntil(s, t, worker, generation, until)
    requires SparedRun(s, steps, t, worker, generation, until) && t > 0 && generation > 0 && !Blank(worker)
    ensures LeasedUntil(After(s, steps), t, worker, generation, Expiry(until, steps, t, worker, generation))
  {
    if steps != [] {
      var earlier := steps[..|steps| - 1];
      LeaseLasts(s, earlier, t, worker, generation, until);
      SparedStep(After(s, earlier), steps[|steps| - 1], t, worker, generation,
                 Expiry(until, earlier, t, worker, generation));
    }
  }

  /** A claim succeeds exactly on an enabled row of an unpaused host whose lease, if any, has expired by then. */
  lemma ClaimExactly(s: System, step: Step)
    requires step.Claim?
    ensures Next(s, step) != s ==> Taken(s, Next(s, step), step.id, step.worker)
    ensures Next(s, step) != s <==>
            && step.now != 0 && !Blank(step.worker) && step.lease > 0 && !step.paused
            && step.id in s.store.targets && s.store.targets[step.id].duty.enabled
            && var at := s.store.targets[step.id].lease.expiresAt; at.None? || at.value <= step.now
  {
    if step.id in s.store.targets {
      var row := s.store.targets[step.id];
      if Claimable(row, step.now, step.paused) && ValidClaim(step.worker, step.now, step.lease) {
        assert Next(s, step).store.targets[step.id].lease.generation == row.lease.generation + 1;
      }
    }
  }

  /** Lease exclusion. After a claim that took the target at `now` for `lease`, and through any steps that spare it,
      its worker holds it until `now` plus the whole seconds of the lease, or of its own last renewal counted from
      that renewal. A claim by anyone changes nothing before that moment, and takes the target from then on if it is
      enabled and its host is not paused. */
  lemma {:induction false} LeasesExclude(s: System, claim: Step, steps: seq<Step>, rival: Step)
    requires claim.Claim? && claim.id > 0 && Next(s, claim) != s
    requires rival.Claim? && rival.id == claim.id && rival.now != 0 && !Blank(rival.worker) && rival.lease > 0
    requires SparedRun(Next(s, claim), steps, claim.id, claim.worker,
                       s.store.targets[claim.id].lease.generation + 1, claim.now + claim.lease / SECOND * SECOND)
    ensures var w, generation := After(Next(s, claim), steps), s.store.targets[claim.id].lease.generation + 1;
            var until := Expiry(claim.now + claim.lease / SECOND * SECOND, steps, claim.id, claim.worker, generation);
            && LeasedUntil(w, claim.id, claim.worker, generation, until)
            && (rival.now < until ==> Next(w, rival) == w)
            && (rival.now >= until && w.store.targets[claim.id].duty.enabled && !rival.paused ==>
                  Taken(w, Next(w, rival), claim.id, rival.worker))
  {
    ClaimExactly(s, claim);
    var generation := s.store.targets[claim.id].lease.generation + 1;
    ClaimSets(s, claim);
    LeaseLasts(Next(s, claim), steps, claim.id, claim.worker, generation, claim.now + claim.lease / SECOND * SECOND);
    ClaimExactly(After(Next(s, claim), steps), rival);
  }

  lemma ClaimSets(s: System, claim: Step)
    requires claim.Claim? && Next(s, claim) != s
    ensures claim.id in s.store.targets && !Blank(claim.worker)
    ensures LeasedUntil(Next(s, claim), claim.id, claim.worker, s.store.targets[claim.id].lease.generation + 1,
                        claim.now + claim.lease / SECOND * SECOND)
  {
  }
}
