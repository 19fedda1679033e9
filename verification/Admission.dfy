/** The store and the host desk together: permits are asked for while claims, commits and repairs go on, and the fence
    of a permit request is read from the target row as it is at that moment. */
module Admission {
  import opened Domain
  import opened Repository
  import opened Fencing
  import opened HostAdmission

  /** A granted permit, with the generation its target row had when it was granted. */
  datatype Grant = Grant(key: Key, permit: nat, generation: Option<int>)

  datatype World = World(system: System, desk: Desk, log: seq<Grant>)

  /** `elsewhere` says that the target row names another host than the request. */
  datatype Move =
    | Transact(step: Step)
    | Ask(request: Request, elsewhere: bool)
    | Tend(upkeep: DeskStep)

  function RowGeneration(s: Store, t: int): Option<int> {
    if t in s.targets then Some(s.targets[t].lease.generation) else None
  }

  /** The fence as AcquireHostPermit reads it inside its own transaction. */
  predicate StillCurrent(s: Store, q: Request, elsewhere: bool) {
    !elsewhere && RowGeneration(s, q.key.target) == Some(q.key.generation)
  }

  ghost function Answer(w: World, q: Request, elsewhere: bool): (Desk, Decision) {
    Acquire(w.desk, q, StillCurrent(w.system.store, q, elsewhere))
  }

  ghost function WorldNext(w: World, m: Move): World {
    match m
    case Transact(step) => w.(system := Next(w.system, step))
    case Ask(q, elsewhere) =>
      var (desk, r) := Answer(w, q, elsewhere);
      w.(desk := desk,
         log := if r.Granted? then w.log + [Grant(q.key, r.id, RowGeneration(w.system.store, q.key.target))] else w.log)
    case Tend(upkeep) => if upkeep.Acquiring? then w else w.(desk := DeskNext(w.desk, upkeep))
  }

  ghost function WorldAfter(moves: seq<Move>): World {
    if moves == [] then World(Initial(), DeskAfter([]), [])
    else WorldNext(WorldAfter(moves[..|moves| - 1]), moves[|moves| - 1])
  }

  lemma OneMove(moves: seq<Move>, m: Move)
    ensures WorldAfter(moves + [m]) == WorldNext(WorldAfter(moves), m)
  {
    assert (moves + [m])[..|moves|] == moves;
  }

  // ---- What the desk answers ----

  /** The request is well formed, and its key already holds a permit that is good at the time of the request. */
  predicate WellAsked(q: Request) {
    !Blank(q.host) && !Blank(q.worker) && q.key.target > 0 && q.key.generation > 0 && q.ttl > 0.0
  }

  predicate HoldsPermit(d: Desk, q: Request) { q.key in d.permits && q.now < d.permits[q.key].expiresAt }

  /** The time a request is served at: never before the host clock. */
  function ServedAt(h: Host, q: Request): real { if q.now < h.clock then h.clock else q.now }

  ghost function LiveKeys(d: Desk, at: real): set<Key> { set k | k in d.permits && at < d.permits[k].expiresAt }

  /** The tokens at a time: what has flowed in since the clock, and no more than the bucket holds. */
  function TokensAt(h: Host, at: real): real {
    var filled := h.tokens + h.rate * (at - h.clock);
    if filled <= h.burst as real then filled else h.burst as real
  }

  lemma RefillMeans(h: Host, at: real)
    requires HostSound(h) && at >= h.clock
    ensures Refill(h, at) == TokensAt(h, at)
  {
    CreditGrows(h.rate, h.rate, h.clock, at);
    assert (at - h.clock) * h.rate == h.rate * (at - h.clock);
  }

  lemma LiveMeans(d: Desk, at: real)
    ensures Unexpired(d.permits, at).Keys == LiveKeys(d, at)
    ensures |Unexpired(d.permits, at)| == |LiveKeys(d, at)|
  {
    assert Unexpired(d.permits, at).Keys == LiveKeys(d, at);
  }

  /** Which of its answers a request gets, each both ways. */
  ghost predicate Answers(d: Desk, q: Request, current: bool, r: Decision) {
    var served := WellAsked(q) && !HoldsPermit(d, q) && d.host.Some?;
    && (r.Held? <==> WellAsked(q) && HoldsPermit(d, q))
    && (r.Unserved? <==> !WellAsked(q) || (!HoldsPermit(d, q) && d.host.None?))
    && (r.Superseded? <==> served && !current)
    && (served && current ==>
          var h := d.host.value;
          var at := ServedAt(h, q);
          var paused := h.pausedUntil.Some? && at < h.pausedUntil.value;
          var full := |LiveKeys(d, at)| >= h.concurrency;
          && (r.Paused? <==> paused)
          && (r.Busy? <==> !paused && full)
          && (r.Starved? <==> !paused && !full && TokensAt(h, at) < 1.0)
          && (r.Granted? <==> !paused && !full && TokensAt(h, at) >= 1.0))
  }

  /** What the answer leaves in the rows: a refusal by fence, form or possession nothing at all; a pause only drops
      expired permits; otherwise the bucket is brought up to date, and a grant takes one token and adds one row. */
  ghost predicate Leaves(d: Desk, q: Request, r: Decision, d': Desk) {
    if r.Held? || r.Unserved? || r.Superseded? then d' == d
    else
      && d.host.Some? && d'.host.Some?
      && var h, h' := d.host.value, d'.host.value;
         var at := ServedAt(h, q);
         && (forall k :: k in d'.permits && !(r.Granted? && k == q.key) ==>
               k in LiveKeys(d, at) && d'.permits[k] == d.permits[k])
         && LiveKeys(d, at) <= d'.permits.Keys
         && h'.(tokens := h.tokens, clock := h.clock) == h
         && (r.Paused? ==> h' == h && h.pausedUntil == Some(r.retryAt))
         && (!r.Paused? ==> h'.clock == at && h'.tokens == TokensAt(h, at) - if r.Granted? then 1.0 else 0.0)
         && (if r.Granted? then
               && r.id == d.lastPermit + 1 && r.expiresAt == at + q.ttl && d'.lastPermit == r.id
               && q.key in d'.permits && d'.permits[q.key] == Permit(r.id, at + q.ttl) && d'.grants == d.grants + [at]
             else d'.lastPermit == d.lastPermit && d'.grants == d.grants)
  }

  lemma AnswersExactly(d: Desk, q: Request, current: bool)
    requires d.host.Some? ==> HostSound(d.host.value)
    ensures Answers(d, q, current, Acquire(d, q, current).1)
    ensures Acquire(d, q, current).1.Held? ==> Acquire(d, q, current).1.permit == d.permits[q.key]
  {
    if d.host.Some? {
      RefillMeans(d.host.value, ServedAt(d.host.value, q));
      LiveMeans(d, ServedAt(d.host.value, q));
    }
  }

  lemma LeavesExactly(d: Desk, q: Request, current: bool)
    requires d.host.Some? ==> HostSound(d.host.value)
    ensures Leaves(d, q, Acquire(d, q, current).1, Acquire(d, q, current).0)
  {
    if d.host.Some? {
      RefillMeans(d.host.value, ServedAt(d.host.value, q));
      LiveMeans(d, ServedAt(d.host.value, q));
    }
  }

  // ---- Joint runs ----

  /** The store steps and the desk steps of a joint run, each permit request with the fence it met. */
  ghost function StoreSteps(moves: seq<Move>): seq<Step> {
    if moves == [] then []
    else
      var last := moves[|moves| - 1];
      StoreSteps(moves[..|moves| - 1]) + if last.Transact? then [last.step] else []
  }

  ghost function DeskSteps(moves: seq<Move>): seq<DeskStep> {
    if moves == [] then []
    else
      var w, last := WorldAfter(moves[..|moves| - 1]), moves[|moves| - 1];
      DeskSteps(moves[..|moves| - 1]) +
      match last
      case Transact(_) => []
      case Ask(q, elsewhere) => [Acquiring(q, StillCurrent(w.system.store, q, elsewhere))]
      case Tend(upkeep) => if upkeep.Acquiring? then [] else [upkeep]
  }

  lemma {:induction false} StoreProjects(moves: seq<Move>)
    ensures WorldAfter(moves).system == After(Initial(), StoreSteps(moves))
  {
    if moves != [] {
      var earlier, last := moves[..|moves| - 1], moves[|moves| - 1];
      StoreProjects(earlier);
      assert StoreSteps(moves)[..|StoreSteps(earlier)|] == StoreSteps(earlier);
      if !last.Transact? { assert StoreSteps(moves) == StoreSteps(earlier); }
    }
  }

  lemma {:induction false} DeskProjects(moves: seq<Move>)
    ensures WorldAfter(moves).desk == DeskAfter(DeskSteps(moves))
  {
    if moves != [] {
      var earlier, last := moves[..|moves| - 1], moves[|moves| - 1];
      DeskProjects(earlier);
      assert DeskSteps(moves)[..|DeskSteps(earlier)|] == DeskSteps(earlier);
      if last.Transact? || (last.Tend? && last.upkeep.Acquiring?) { assert DeskSteps(moves) == DeskSteps(earlier); }
    }
  }

  /** A joint run is a run of the store and a run of the desk, so the theorems of either hold in it. */
  lemma {:induction false} JointRunsProject(moves: seq<Move>)
    ensures WorldAfter(moves).system == After(Initial(), StoreSteps(moves))
    ensures WorldAfter(moves).desk == DeskAfter(DeskSteps(moves))
  {
    StoreProjects(moves);
    DeskProjects(moves);
  }

  lemma {:induction false} JointHostSound(moves: seq<Move>)
    ensures WorldAfter(moves).desk.host.Some? ==> HostSound(WorldAfter(moves).desk.host.value)
  {
    JointRunsProject(moves);
    RunsSound(DeskSteps(moves), 5, 5.0, 4);
  }

  ghost predicate LogTruthful(w: World) {
    && (forall n :: 0 <= n < |w.log| ==> w.log[n].generation == Some(w.log[n].key.generation))
    && |w.log| == |w.desk.grants| == w.desk.lastPermit
    && (forall k :: k in w.desk.permits ==> Logged(w, k, w.desk.permits[k].id))
  }

  ghost predicate Logged(w: World, k: Key, permit: nat) {
    1 <= permit <= |w.log| && w.log[permit - 1].key == k && w.log[permit - 1].permit == permit
  }

  /** What a request does to the permit rows and the log together. */
  ghost predicate RowsLogged(w: World, q: Request, r: Decision, w': World) {
    && (if r.Granted? then
          && w'.log == w.log + [Grant(q.key, w.desk.lastPermit + 1, Some(q.key.generation))]
          && |w'.desk.grants| == |w.desk.grants| + 1 && w'.desk.lastPermit == w.desk.lastPermit + 1
        else w'.log == w.log && w'.desk.grants == w.desk.grants && w'.desk.lastPermit == w.desk.lastPermit)
    && (forall k :: k in w'.desk.permits ==>
          || (k in w.desk.permits && w'.desk.permits[k] == w.desk.permits[k])
          || (r.Granted? && k == q.key && w'.desk.permits[k].id == w.desk.lastPermit + 1))
  }

  lemma AskLogs(w: World, q: Request, elsewhere: bool)
    requires w.desk.host.Some? ==> HostSound(w.desk.host.value)
    ensures RowsLogged(w, q, Answer(w, q, elsewhere).1, WorldNext(w, Ask(q, elsewhere)))
  {
    var current := StillCurrent(w.system.store, q, elsewhere);
    AnswersExactly(w.desk, q, current);
    LeavesExactly(w.desk, q, current);
  }

  lemma LoggedKeepsTruth(w: World, q: Request, r: Decision, w': World)
    requires LogTruthful(w) && RowsLogged(w, q, r, w')
    ensures LogTruthful(w')
  {
    forall k | k in w'.desk.permits ensures Logged(w', k, w'.desk.permits[k].id) {
      if k in w.desk.permits { assert Logged(w, k, w.desk.permits[k].id); }
    }
  }

  lemma TendKeepsLog(w: World, upkeep: DeskStep)
    requires LogTruthful(w)
    ensures LogTruthful(WorldNext(w, Tend(upkeep)))
  {
    var w' := WorldNext(w, Tend(upkeep));
    forall k | k in w'.desk.permits ensures Logged(w', k, w'.desk.permits[k].id) {
      assert Logged(w, k, w.desk.permits[k].id);
    }
  }

  /** Every grant in the log was for the generation the target row had at that step. The log has one entry for every
      permit ever granted, and every permit row is the one logged under its number, so no two rows share one. */
  lemma {:induction false} GrantsAreFenced(moves: seq<Move>)
    ensures LogTruthful(WorldAfter(moves))
  {
    if moves != [] {
      var earlier, last := moves[..|moves| - 1], moves[|moves| - 1];
      GrantsAreFenced(earlier);
      var w := WorldAfter(earlier);
      match last {
        case Transact(_) =>
          assert forall k :: k in w.desk.permits ==> Logged(WorldAfter(moves), k, w.desk.permits[k].id) by {
            assert forall k :: k in w.desk.permits ==> Logged(w, k, w.desk.permits[k].id);
          }
        case Ask(q, elsewhere) =>
          JointHostSound(earlier);
          AskLogs(w, q, elsewhere);
          LoggedKeepsTruth(w, q, Answer(w, q, elsewhere).1, WorldAfter(moves));
        case Tend(upkeep) => TendKeepsLog(w, upkeep);
      }
    }
  }

  /** In every joint run a well-formed request whose target row is missing, names another host or has another
      generation is refused as superseded and changes no row; unless its key still holds a permit, which is then what
      it is given. A request that is not well formed, or for an unknown host, changes nothing either. */
  lemma {:induction false} StaleRequestsAreFenced(moves: seq<Move>, q: Request, elsewhere: bool)
    ensures var w := WorldAfter(moves);
            var (desk, r) := Answer(w, q, elsewhere);
            var stale := elsewhere || RowGeneration(w.system.store, q.key.target) != Some(q.key.generation);
            && (WellAsked(q) && HoldsPermit(w.desk, q) ==> r == Held(w.desk.permits[q.key]) && desk == w.desk)
            && (WellAsked(q) && !HoldsPermit(w.desk, q) && w.desk.host.Some? && stale ==>
                  r == Superseded && desk == w.desk)
            && (!stale ==> !r.Superseded?)
            && (!WellAsked(q) || (!HoldsPermit(w.desk, q) && w.desk.host.None?) ==> r == Unserved && desk == w.desk)
  {
    JointHostSound(moves);
    var w := WorldAfter(moves);
    AnswersExactly(w.desk, q, StillCurrent(w.system.store, q, elsewhere));
    LeavesExactly(w.desk, q, StillCurrent(w.system.store, q, elsewhere));
  }

  /** What a current request meets, in every joint run. */
  lemma {:induction false} RequestsAreAnswered(moves: seq<Move>, q: Request, elsewhere: bool)
    ensures var w := WorldAfter(moves);
            var (desk, r) := Answer(w, q, elsewhere);
            var current := !elsewhere && RowGeneration(w.system.store, q.key.target) == Some(q.key.generation);
            && Answers(w.desk, q, current, r)
            && Leaves(w.desk, q, r, desk)
  {
    JointHostSound(moves);
    var w := WorldAfter(moves);
    AnswersExactly(w.desk, q, StillCurrent(w.system.store, q, elsewhere));
    LeavesExactly(w.desk, q, StillCurrent(w.system.store, q, elsewhere));
  }

  // ---- A permit lasts its time ----

  /** The step does not release this permit and happens before its expiry. */
  predicate Spares(m: Move, p: Permit) {
    match m
    case Transact(_) => true
    case Ask(q, _) => q.now < p.expiresAt
    case Tend(Seeding(_)) => true
    case Tend(Acquiring(_, _)) => true
    case Tend(Releasing(id)) => id != p.id
    case Tend(Expiring(now)) => now < p.expiresAt
    case Tend(Observing(o)) => o.at < p.expiresAt
  }

  ghost predicate Stands(w: World, k: Key, p: Permit) {
    k in w.desk.permits && w.desk.permits[k] == p && w.desk.host.Some? && w.desk.host.value.clock < p.expiresAt
  }

  lemma MoveSparesPermit(moves: seq<Move>, m: Move, k: Key, p: Permit)
    requires Stands(WorldAfter(moves), k, p) && Spares(m, p)
    ensures Stands(WorldAfter(moves + [m]), k, p)
  {
    var w := WorldAfter(moves);
    OneMove(moves, m);
    JointHostSound(moves);
    match m {
      case Transact(_) =>
      case Ask(q, elsewhere) =>
        AnswersExactly(w.desk, q, StillCurrent(w.system.store, q, elsewhere));
        LeavesExactly(w.desk, q, StillCurrent(w.system.store, q, elsewhere));
        assert k in LiveKeys(w.desk, ServedAt(w.desk.host.value, q));
      case Tend(upkeep) =>
        if upkeep.Observing? { ClockAfter(w.desk.host.value, upkeep.observation); }
    }
  }

  lemma ClockAfter(h: Host, o: Observation)
    requires HostSound(h)
    ensures Observed(h, o).clock == if o.at < h.clock then h.clock else o.at
  {
  }

  lemma GrantStands(moves: seq<Move>, q: Request, elsewhere: bool)
    requires Answer(WorldAfter(moves), q, elsewhere).1.Granted?
    ensures var r := Answer(WorldAfter(moves), q, elsewhere).1;
            Stands(WorldAfter(moves + [Ask(q, elsewhere)]), q.key, Permit(r.id, r.expiresAt))
  {
    var w := WorldAfter(moves);
    OneMove(moves, Ask(q, elsewhere));
    JointHostSound(moves);
    AnswersExactly(w.desk, q, StillCurrent(w.system.store, q, elsewhere));
    LeavesExactly(w.desk, q, StillCurrent(w.system.store, q, elsewhere));
  }

  lemma {:induction false} StandingLasts(moves: seq<Move>, more: seq<Move>, k: Key, p: Permit)
    requires Stands(WorldAfter(moves), k, p) && forall n :: 0 <= n < |more| ==> Spares(more[n], p)
    ensures Stands(WorldAfter(moves + more), k, p)
    decreases |more|
  {
    if more == [] {
      assert moves + more == moves;
    } else {
      var earlier := more[..|more| - 1];
      StandingLasts(moves, earlier, k, p);
      MoveSparesPermit(moves + earlier, more[|more| - 1], k, p);
      assert moves + more == (moves + earlier) + [more[|more| - 1]];
    }
  }

  /** Until it expires or is released, a granted permit stands for at least the time asked for, and asking again for
      its key returns it, whatever has become of the target row. */
  lemma {:induction false} PermitsLast(moves: seq<Move>, more: seq<Move>, q: Request, elsewhere: bool, again: Request,
                                       current: bool)
    requires Answer(WorldAfter(moves), q, elsewhere).1.Granted?
    requires var r := Answer(WorldAfter(moves), q, elsewhere).1;
             && (forall n :: 0 <= n < |more| ==> Spares(more[n], Permit(r.id, r.expiresAt)))
             && WellAsked(again) && again.key == q.key && again.now < r.expiresAt
    ensures var r := Answer(WorldAfter(moves), q, elsewhere).1;
            && r.expiresAt >= q.now + q.ttl
            && Acquire(WorldAfter(moves + [Ask(q, elsewhere)] + more).desk, again, current).1 ==
               Held(Permit(r.id, r.expiresAt))
  {
    var r := Answer(WorldAfter(moves), q, elsewhere).1;
    GrantStands(moves, q, elsewhere);
    StandingLasts(moves + [Ask(q, elsewhere)], more, q.key, Permit(r.id, r.expiresAt));
  }

  /** In every joint run, releasing takes away exactly the permit of that number, and one place becomes free if it was
      there; expiry takes away exactly the permits that are over. */
  lemma {:induction false} ReleaseFreesOne(moves: seq<Move>, k: Key, now: real)
    requires k in WorldAfter(moves).desk.permits
    ensures var d := WorldAfter(moves).desk;
            var released := WorldNext(WorldAfter(moves), Tend(Releasing(d.permits[k].id))).desk;
            var expired := WorldNext(WorldAfter(moves), Tend(Expiring(now))).desk;
            && released == d.(permits := d.permits - {k}) && |released.permits| == |d.permits| - 1
            && expired == d.(permits := expired.permits) && expired.permits.Keys == LiveKeys(d, now)
            && forall j :: j in expired.permits ==> expired.permits[j] == d.permits[j]
  {
    GrantsAreFenced(moves);
    var w := WorldAfter(moves);
    var d := w.desk;
    forall j | j in d.permits && d.permits[j].id == d.permits[k].id ensures j == k {
      assert Logged(w, j, d.permits[j].id) && Logged(w, k, d.permits[k].id);
    }
    assert Released(d, d.permits[k].id).permits == d.permits - {k};
    assert (d.permits - {k}).Keys == d.permits.Keys - {k};
    assert |d.permits - {k}| == |(d.permits - {k}).Keys| && |d.permits| == |d.permits.Keys|;
    LiveMeans(d, now);
  }
}
