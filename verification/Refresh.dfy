/** RefreshNow (internal/scraper/scheduler.go:416-501) beside arbitrary other workers: it either runs its
    own claim or coalesces behind another lease, and in both cases a nil return means progress. */
module Refresh {
  import opened Domain
  import opened Repository
  import opened Coordinator
  import opened Fencing

  /** Where the refresher stands. `baseline` is the validation sequence it read first. */
  datatype Phase =
    | Reading
    | Claiming(baseline: nat, failures: nat)
    | Running(baseline: nat, key: Key)
    | Locking(baseline: nat, key: Key, input: CommitInput, evidence: Evidence)
    | Polling(baseline: nat, failures: nat)
    | ReturnedNil
    | ReturnedError

  datatype World = World(sys: System, phase: Phase)

  /** `Others` is any transaction of anyone else. `GiveUp` covers every error return: permit, cancellation,
      rescheduling, a failed read. */
  datatype Move =
    | Others(step: Step)
    | SeedTarget(seed: Seed)
    | ReadBaseline
    | MarkDue(now: int)
    | TryClaim(worker: string, now: int, lease: int, paused: bool, skipped: bool)
    | ReadPrior(readable: bool)
    | CheckExisting(input: CommitInput, evidence: Evidence)
    | CommitLock
    | Poll(now: int)
    | GiveUp

  /** A claim is run only by the process that made it, so nobody else commits under its key. */
  predicate Foreign(w: World, step: Step) {
    step.Lock? && (w.phase.Running? || w.phase.Locking?) ==> KeyOf(step.input) != w.phase.key
  }

  function Act(w: World, t: int, m: Move): World {
    var targets := w.sys.store.targets;
    match m
    case Others(step) => if Foreign(w, step) then w.(sys := Next(w.sys, step)) else w
    case SeedTarget(seed) => if w.phase.Reading? then w.(sys := Next(w.sys, Plant(t, seed))) else w
    case ReadBaseline =>
      if w.phase.Reading? && t in targets
      then w.(phase := Claiming(targets[t].content.seqNo, targets[t].duty.failures)) else w
    case MarkDue(now) =>
      if w.phase.Claiming? && t in targets then
        w.(sys := Next(w.sys, Rewrite(t, targets[t].duty.(nextRunAt := Least(targets[t].duty.nextRunAt, now)))))
      else w
    case TryClaim(worker, now, lease, paused, skipped) =>
      if !w.phase.Claiming? then w
      else if !ValidClaim(worker, now, lease) then w.(phase := ReturnedError)
      else if t in targets && Claimable(targets[t], now, paused) && !skipped then
        World(Next(w.sys, Claim(t, worker, now, lease, paused)),
              Running(w.phase.baseline, Key(t, targets[t].lease.generation + 1)))
      else if t !in targets || !targets[t].duty.enabled || paused then w.(phase := ReturnedError)
      else w.(phase := Polling(w.phase.baseline, w.phase.failures))
    case ReadPrior(readable) =>
      if w.phase.Running? then w.(sys := Next(w.sys, ReadPrevious(w.phase.key, readable))) else w
    case CheckExisting(input, evidence) =>
      if !w.phase.Running? || KeyOf(input) != w.phase.key then w
      else if !ValidCommit(input) then w.(phase := ReturnedError)
      else
        var answer := Existing(w.sys.store, w.phase.key);
        if answer.None? then w.(phase := Locking(w.phase.baseline, w.phase.key, input, evidence))
        else w.(phase := if answer.value.Replayed? && Successful(input.outcome) then ReturnedNil else ReturnedError)
    case CommitLock =>
      if !w.phase.Locking? then w
      else
        var accepted := Accepts(w.sys.store, w.phase.input);
        World(Next(w.sys, Lock(w.phase.input, w.phase.evidence)),
              if accepted && Successful(w.phase.input.outcome) then ReturnedNil else ReturnedError)
    case Poll(now) =>
      if !w.phase.Polling? then w
      else if t !in targets then w.(phase := ReturnedError)
      else if targets[t].content.seqNo > w.phase.baseline then w.(phase := ReturnedNil)
      else if targets[t].duty.failures > w.phase.failures then w.(phase := ReturnedError)
      else if !LeaseFree(targets[t], now) then w
      else w.(phase := Claiming(w.phase.baseline, w.phase.failures))
    case GiveUp =>
      if w.phase.ReturnedNil? then w else w.(phase := ReturnedError)
  }

  function Acts(w: World, t: int, moves: seq<Move>): World
    decreases |moves|
  {
    if moves == [] then w else Act(Acts(w, t, moves[..|moves| - 1]), t, moves[|moves| - 1])
  }

  function SeqOf(s: Store, t: int): nat { if t in s.targets then s.targets[t].content.seqNo else 0 }

  lemma SequenceOnlyGrows(s: System, step: Step, t: int)
    ensures t in s.store.targets ==> t in Next(s, step).store.targets
    ensures SeqOf(Next(s, step).store, t) >= SeqOf(s.store, t)
  {
    if step.Lock? && Accepts(s.store, step.input) {
      AcceptedRows(s.store, step.input);
      if t in s.store.targets && t != step.input.target {
        assert Weakened(s.store.targets[t], Next(s, step).store.targets[t]);
      }
    } else if Housekeeping(step) {
      HousekeepingWeakens(s, step);
      if t in s.store.targets { assert Weakened(s.store.targets[t], Next(s, step).store.targets[t]); }
    }
  }

  lemma OthersLeaveKeyAlone(s: System, step: Step, k: Key)
    requires !Committed(s, k) && (step.Lock? ==> KeyOf(step.input) != k)
    ensures !Committed(Next(s, step), k)
  {
    var s' := Next(s, step);
    forall j | 0 <= j < |s'.ledger| ensures KeyOf(s'.ledger[j].input) != k {
      if j < |s.ledger| { assert s'.ledger[j] == s.ledger[j]; }
    }
  }

  lemma FreshClaimUncommitted(s: System, t: int)
    requires Fenced(s) && t in s.store.targets
    ensures !Committed(s, Key(t, s.store.targets[t].lease.generation + 1))
  {
    forall j | 0 <= j < |s.ledger|
      ensures KeyOf(s.ledger[j].input) != Key(t, s.store.targets[t].lease.generation + 1)
    {
      assert Dead(s.store, KeyOf(s.ledger[j].input));
    }
  }

  ghost predicate OnTrack(w: World, t: int, start: nat) {
    && Fenced(w.sys)
    && SeqOf(w.sys.store, t) >= start
    && match w.phase
       case Reading => true
       case Claiming(baseline, _) => start <= baseline <= SeqOf(w.sys.store, t)
       case Running(baseline, key) =>
         key.target == t && start <= baseline <= SeqOf(w.sys.store, t) && !Committed(w.sys, key)
       case Locking(baseline, key, input, _) =>
         key.target == t && KeyOf(input) == key && start <= baseline <= SeqOf(w.sys.store, t) && !Committed(w.sys, key)
       case Polling(baseline, _) => start <= baseline <= SeqOf(w.sys.store, t)
       case ReturnedNil => SeqOf(w.sys.store, t) > start
       case ReturnedError => true
  }

  lemma StoreMoveOnTrack(w: World, t: int, step: Step, start: nat)
    requires OnTrack(w, t, start) && Foreign(w, step)
    ensures OnTrack(w.(sys := Next(w.sys, step)), t, start)
  {
    StepKeepsFence(w.sys, step);
    SequenceOnlyGrows(w.sys, step, t);
    if w.phase.Running? || w.phase.Locking? { OthersLeaveKeyAlone(w.sys, step, w.phase.key); }
  }

  lemma ClaimOnTrack(w: World, t: int, m: Move, start: nat)
    requires OnTrack(w, t, start) && m.TryClaim?
    ensures OnTrack(Act(w, t, m), t, start)
  {
    var targets := w.sys.store.targets;
    if w.phase.Claiming? && ValidClaim(m.worker, m.now, m.lease)
       && t in targets && Claimable(targets[t], m.now, m.paused) && !m.skipped {
      var step := Claim(t, m.worker, m.now, m.lease, m.paused);
      StepKeepsFence(w.sys, step);
      SequenceOnlyGrows(w.sys, step, t);
      FreshClaimUncommitted(w.sys, t);
      OthersLeaveKeyAlone(w.sys, step, Key(t, targets[t].lease.generation + 1));
    }
  }

  lemma CommitOnTrack(w: World, t: int, start: nat)
    requires OnTrack(w, t, start) && w.phase.Locking?
    ensures OnTrack(Act(w, t, CommitLock), t, start)
  {
    var step := Lock(w.phase.input, w.phase.evidence);
    StepKeepsFence(w.sys, step);
    SequenceOnlyGrows(w.sys, step, t);
    if Accepts(w.sys.store, w.phase.input) { AcceptedRows(w.sys.store, w.phase.input); }
  }

  lemma MoveOnTrack(w: World, t: int, m: Move, start: nat)
    requires OnTrack(w, t, start)
    ensures OnTrack(Act(w, t, m), t, start)
  {
    match m {
      case Others(step) => if Foreign(w, step) { StoreMoveOnTrack(w, t, step, start); }
      case SeedTarget(seed) => StoreMoveOnTrack(w, t, Plant(t, seed), start);
      case MarkDue(now) =>
        if t in w.sys.store.targets {
          var duty := w.sys.store.targets[t].duty;
          StoreMoveOnTrack(w, t, Rewrite(t, duty.(nextRunAt := Least(duty.nextRunAt, now))), start);
        }
      case TryClaim(_, _, _, _, _) => ClaimOnTrack(w, t, m, start);
      case ReadPrior(readable) =>
        if w.phase.Running? { StoreMoveOnTrack(w, t, ReadPrevious(w.phase.key, readable), start); }
      case CommitLock => if w.phase.Locking? { CommitOnTrack(w, t, start); }
      case _ =>
    }
  }

  lemma {:induction false} MovesOnTrack(w: World, t: int, moves: seq<Move>, start: nat)
    requires OnTrack(w, t, start)
    ensures OnTrack(Acts(w, t, moves), t, start)
  {
    if moves != [] {
      MovesOnTrack(w, t, moves[..|moves| - 1], start);
      MoveOnTrack(Acts(w, t, moves[..|moves| - 1]), t, moves[|moves| - 1], start);
    }
  }

  /** RefreshNow means progress: started in any reachable state and interleaved with anything, it returns nil
      only if the target's validation sequence has strictly risen since it started. */
  lemma {:induction false} NilMeansProgress(past: seq<Step>, t: int, moves: seq<Move>)
    requires Acts(World(After(Initial(), past), Reading), t, moves).phase.ReturnedNil?
    ensures SeqOf(Acts(World(After(Initial(), past), Reading), t, moves).sys.store, t)
            > SeqOf(After(Initial(), past).store, t)
  {
    RunsAreFenced(past);
    MovesOnTrack(World(After(Initial(), past), Reading), t, moves, SeqOf(After(Initial(), past).store, t));
  }

  // ---- The converse: progress is never reported as an error ----

  predicate Done(w: World) { w.phase.ReturnedNil? || w.phase.ReturnedError? }

  /** A commit move ends the refresh: nil if and only if it raised the target's sequence, which it then does by one,
      and which is if and only if the commit entered the ledger as a success. */
  predicate CommitReported(w: World, t: int, w': World)
    requires w.phase.Locking?
  {
    var before, after, outcome := SeqOf(w.sys.store, t), SeqOf(w'.sys.store, t), w.phase.input.outcome;
    && (after > before <==>
          |w'.sys.ledger| > |w.sys.ledger| && (outcome.Changed? || outcome.Unchanged? || outcome.NotModified?))
    && (w'.phase.ReturnedNil? || w'.phase.ReturnedError?)
    && (w'.phase.ReturnedNil? <==> after > before) && after <= before + 1
  }

  /** A poll reports progress past the baseline first, then a missing row, then new failures; otherwise it waits for
      the lease in sight to run out and claims again. It changes nothing itself. */
  predicate PollReported(w: World, t: int, now: int, w': World)
    requires w.phase.Polling?
  {
    var rows := w.sys.store.targets;
    && w'.sys == w.sys
    && (w'.phase.ReturnedNil? <==> SeqOf(w.sys.store, t) > w.phase.baseline)
    && (w'.phase.ReturnedError? <==>
          t !in rows || (SeqOf(w.sys.store, t) <= w.phase.baseline && rows[t].duty.failures > w.phase.failures))
    && (w'.phase.ReturnedNil? || w'.phase.ReturnedError?
        || (if rows[t].lease.expiresAt.Some? && rows[t].lease.expiresAt.value > now then w'.phase == w.phase
            else w'.phase == Claiming(w.phase.baseline, w.phase.failures)))
  }

  /** A claim move runs the target if the claim takes it, gives up on one it can never take, and otherwise polls. */
  predicate ClaimReported(w: World, t: int, m: Move, w': World)
    requires w.phase.Claiming? && m.TryClaim?
  {
    var rows := w.sys.store.targets;
    var valid := !Blank(m.worker) && m.now != 0 && m.lease > 0;
    var open := valid && t in rows && rows[t].duty.enabled && !m.paused;
    var taken := open && !m.skipped && (rows[t].lease.expiresAt.None? || rows[t].lease.expiresAt.value <= m.now);
    && (w'.phase.ReturnedError? <==> !open)
    && (w'.phase.Polling? <==> open && !taken)
    && (w'.phase.Running? <==> taken)
    && (w'.phase.Polling? ==> w'.phase == Polling(w.phase.baseline, w.phase.failures))
    && (taken ==>
          && t in w'.sys.store.targets
          && w'.phase == Running(w.phase.baseline, Key(t, w'.sys.store.targets[t].lease.generation))
          && w'.sys.store.targets[t].lease.generation == rows[t].lease.generation + 1)
  }

  lemma CommitReports(w: World, t: int, start: nat)
    requires OnTrack(w, t, start) && w.phase.Locking?
    ensures CommitReported(w, t, Act(w, t, CommitLock))
  {
    if Accepts(w.sys.store, w.phase.input) { AcceptedRows(w.sys.store, w.phase.input); }
  }

  lemma PollReports(w: World, t: int, now: int, start: nat)
    requires OnTrack(w, t, start) && w.phase.Polling?
    ensures PollReported(w, t, now, Act(w, t, Poll(now)))
  {
  }

  lemma ClaimReports(w: World, t: int, m: Move)
    requires w.phase.Claiming? && m.TryClaim?
    ensures ClaimReported(w, t, m, Act(w, t, m))
  {
  }

  /** The check for an existing run finds none under a key that was never committed. */
  lemma CheckReports(w: World, t: int, m: Move, start: nat)
    requires OnTrack(w, t, start) && w.phase.Running? && m.CheckExisting? && KeyOf(m.input) == w.phase.key
    ensures var w' := Act(w, t, m);
            && w'.sys == w.sys
            && (w'.phase.ReturnedError? <==> !ValidCommit(m.input))
            && (ValidCommit(m.input) ==> w'.phase == Locking(w.phase.baseline, w.phase.key, m.input, m.evidence))
  {
    assert w.phase.key !in w.sys.store.runs;
  }

  ghost function Reached(past: seq<Step>, t: int, moves: seq<Move>): World {
    Acts(World(After(Initial(), past), Reading), t, moves)
  }

  /** In every reachable world: a commit move that raises the target's sequence returns nil, and one that does not
      returns an error; a poll taken while the sequence exceeds the baseline returns nil; and the other replies are
      as stated. */
  lemma {:induction false} ProgressMeansNil(past: seq<Step>, t: int, moves: seq<Move>, m: Move)
    ensures var w := Reached(past, t, moves);
            var w' := Act(w, t, m);
            && (m.CommitLock? && w.phase.Locking? ==> CommitReported(w, t, w'))
            && (m.Poll? && w.phase.Polling? ==> PollReported(w, t, m.now, w'))
            && (m.TryClaim? && w.phase.Claiming? ==> ClaimReported(w, t, m, w'))
  {
    RunsAreFenced(past);
    var w, start := Reached(past, t, moves), SeqOf(After(Initial(), past).store, t);
    MovesOnTrack(World(After(Initial(), past), Reading), t, moves, start);
    if m.CommitLock? && w.phase.Locking? { CommitReports(w, t, start); }
    if m.Poll? && w.phase.Polling? { PollReports(w, t, m.now, start); }
    if m.TryClaim? && w.phase.Claiming? { ClaimReports(w, t, m); }
  }

  /** The only moves that can end in an error: giving up, a malformed claim or commit, a target that is missing,
      disabled or of a paused host, a commit that left the sequence where it was, or failures above the baseline's. */
  predicate Trouble(w: World, t: int, m: Move) {
    var rows := w.sys.store.targets;
    match m
    case GiveUp => true
    case TryClaim(worker, now, lease, paused, _) =>
      Blank(worker) || now == 0 || lease <= 0 || t !in rows || !rows[t].duty.enabled || paused
    case CheckExisting(input, _) => !ValidCommit(input)
    case CommitLock => SeqOf(Act(w, t, m).sys.store, t) == SeqOf(w.sys.store, t)
    case Poll(_) =>
      t !in rows
      || (w.phase.Polling? && SeqOf(w.sys.store, t) <= w.phase.baseline && rows[t].duty.failures > w.phase.failures)
    case _ => false
  }

  lemma ErrorsAreTrouble(w: World, t: int, m: Move, start: nat)
    requires OnTrack(w, t, start) && !w.phase.ReturnedError? && Act(w, t, m).phase.ReturnedError?
    ensures Trouble(w, t, m)
  {
    if m.CommitLock? { CommitReports(w, t, start); SequenceOnlyGrows(w.sys, Lock(w.phase.input, w.phase.evidence), t); }
    if m.CheckExisting? { CheckReports(w, t, m, start); }
  }

  /** So every error return has such a cause in its run. */
  lemma {:induction false} ErrorMeansTrouble(past: seq<Step>, t: int, moves: seq<Move>) returns (n: nat)
    requires Reached(past, t, moves).phase.ReturnedError?
    ensures n < |moves| && !Done(Reached(past, t, moves[..n])) && Trouble(Reached(past, t, moves[..n]), t, moves[n])
  {
    var last := |moves| - 1;
    var w := Reached(past, t, moves[..last]);
    if w.phase.ReturnedError? {
      n := ErrorMeansTrouble(past, t, moves[..last]);
      assert moves[..last][..n] == moves[..n];
    } else {
      n := last;
      RunsAreFenced(past);
      MovesOnTrack(World(After(Initial(), past), Reading), t, moves[..last], SeqOf(After(Initial(), past).store, t));
      ErrorsAreTrouble(w, t, moves[last], SeqOf(After(Initial(), past).store, t));
    }
  }

  /** What the remaining moves do: others act unless they would commit under the refresher's own key; seeding plants a
      missing row; marking due moves the next run to no later than now and changes nothing else; a replayed answer
      counts as the outcome submitted. */
  lemma MovesMean(w: World, t: int, m: Move)
    ensures var w', rows := Act(w, t, m), w.sys.store.targets;
            match m
            case Others(step) =>
              w' == if step.Lock? && (w.phase.Running? || w.phase.Locking?) && KeyOf(step.input) == w.phase.key
                    then w else w.(sys := Next(w.sys, step))
            case SeedTarget(seed) => w' == if w.phase == Reading then w.(sys := Next(w.sys, Plant(t, seed))) else w
            case ReadPrior(readable) =>
              w' == if w.phase.Running? then w.(sys := Next(w.sys, ReadPrevious(w.phase.key, readable))) else w
            case MarkDue(now) =>
              if w.phase.Claiming? && t in rows then
                && w'.phase == w.phase && SameButTargets(w.sys, w'.sys) && t in w'.sys.store.targets
                && var at := w'.sys.store.targets[t].duty.nextRunAt;
                   && at <= now && at <= rows[t].duty.nextRunAt && (at == now || at == rows[t].duty.nextRunAt)
                   && w'.sys.store.targets == rows[t := rows[t].(duty := rows[t].duty.(nextRunAt := at))]
              else w' == w
            case CheckExisting(input, _) =>
              w.phase.Running? && KeyOf(input) == w.phase.key && ValidCommit(input)
              && w.phase.key in w.sys.store.runs ==>
                var run := w.sys.store.runs[w.phase.key];
                var lost := run.outcome == Changed && Unnamed(w.sys.store, w.phase.key);
                w'.phase == if !lost && input.outcome in {Changed, Unchanged, NotModified}
                            then ReturnedNil else ReturnedError
            case _ => true
  {
  }

  /** The baseline is what the row says when it is read, and no other move changes it. */
  lemma BaselineIsRead(w: World, t: int, m: Move)
    ensures var w' := Act(w, t, m);
            && (m.ReadBaseline? && w.phase.Reading? && t in w.sys.store.targets ==>
                  w'.phase == Claiming(SeqOf(w.sys.store, t), w.sys.store.targets[t].duty.failures) && w'.sys == w.sys)
            && (!w.phase.Reading? && !Done(w') ==>
                  !w'.phase.Reading? && !Done(w) && w'.phase.baseline == w.phase.baseline)
            && (Done(w) && !m.GiveUp? ==> w'.phase == w.phase)
  {
  }
}
