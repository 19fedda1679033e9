/** The active/idle lifecycle (internal/service/activity_controller.go). Requests, recorders and the controller
    loop interleave at their atomic operations; the transition mutex makes Begin and the idle path exclusive. */
module Activity {

  /** The shared counters and the one-slot channel. */
  datatype Counters = Counters(activitySeq: nat, signal: bool, inFlight: int)

  function Added(c: Counters): Counters { c.(activitySeq := c.activitySeq + 1) }

  /** A send to the one-slot channel, absorbed when it is full. */
  function Sent(c: Counters): Counters { c.(signal := true) }

  function Begun(c: Counters): Counters { c.(inFlight := c.inFlight + 1) }

  function Ended(c: Counters): Counters { c.(inFlight := c.inFlight - 1) }

  // ---- The request side in place ----

  class Lease {
    var finished: bool

    constructor ()
      ensures !finished
    {
      finished := false;
    }
  }

  class Controller {
    var activitySeq: nat
    var signal: bool
    var inFlight: int

    function State(): Counters
      reads this
    {
      Counters(activitySeq, signal, inFlight)
    }

    constructor ()
      ensures State() == Counters(0, false, 0)
    {
      activitySeq, signal, inFlight := 0, false, 0;
    }

    method RecordActivity()
      modifies this
      ensures State() == Sent(Added(old(State())))
      ensures activitySeq == old(activitySeq) + 1 && signal && inFlight == old(inFlight)
    {
      activitySeq := activitySeq + 1;
      if !signal { signal := true; }
    }

    method BeginActivity() returns (lease: Lease)
      modifies this
      ensures fresh(lease) && !lease.finished && State() == Begun(old(State()))
      ensures inFlight == old(inFlight) + 1 && activitySeq == old(activitySeq) && signal == old(signal)
    {
      inFlight := inFlight + 1;
      lease := new Lease();
    }

    /** Only the first Finish of a lease counts; a successful one then records activity. */
    method Finish(lease: Lease, success: bool)
      modifies this, lease
      ensures lease.finished
      ensures State() == if old(lease.finished) then old(State())
                         else if success then Sent(Added(Ended(old(State())))) else Ended(old(State()))
      ensures inFlight == old(inFlight) - (if old(lease.finished) then 0 else 1)
      ensures activitySeq == old(activitySeq) + (if success && !old(lease.finished) then 1 else 0)
      ensures signal == (old(signal) || (success && !old(lease.finished)))
    {
      if lease.finished { return; }
      lease.finished := true;
      inFlight := inFlight - 1;
      if success { RecordActivity(); }
    }
  }

  // ---- The whole system ----

  /** Where the loop stands. From `Inspecting` to `Handling` it holds the mutex; `Draining` and `LastHandling`
      are the shutdown path, which takes no mutex. */
  datatype Place =
    | Selecting | Reloading | Locking(expiring: nat) | Inspecting(expiring: nat) | Comparing(expiring: nat)
    | Stopping(expiring: nat) | Rechecking(expiring: nat) | Handling(expiring: nat)
    | Draining | LastHandling | Stopped

  datatype World = World(
    shared: Counters, recorders: set<int>, open: set<int>, closed: set<int>, place: Place, handled: nat,
    workers: bool, timer: bool)

  predicate Locked(w: World) {
    w.place.Inspecting? || w.place.Comparing? || w.place.Stopping? || w.place.Rechecking? || w.place.Handling?
  }

  datatype Step =
    | Add(recorder: int) | Send(recorder: int)
    | Begin(lease: int) | Finish(lease: int)
    | TakeSignal | Reload | TimerFires | TakeMutex | LoadInFlight | CompareSeq | WorkersStop | RecheckSeq | HandlersDone
    | ContextEnds | Drained | LastDone

  function Next(w: World, step: Step): World {
    match step
    case Add(r) =>
      if r in w.recorders then w else w.(shared := Added(w.shared), recorders := w.recorders + {r})
    case Send(r) => if r in w.recorders then w.(shared := Sent(w.shared), recorders := w.recorders - {r}) else w
    case Begin(l) =>
      if Locked(w) || l in w.open || l in w.closed then w else w.(shared := Begun(w.shared), open := w.open + {l})
    case Finish(l) =>
      if l in w.open then w.(shared := Ended(w.shared), open := w.open - {l}, closed := w.closed + {l}) else w
    case TakeSignal =>
      if w.place.Selecting? && w.shared.signal
      then w.(shared := w.shared.(signal := false), place := Reloading) else w
    case Reload =>
      if w.place.Reloading?
      then w.(handled := w.shared.activitySeq, timer := true, workers := true, place := Selecting) else w
    case TimerFires =>
      if w.place.Selecting? && w.timer then w.(timer := false, place := Locking(w.handled)) else w
    case TakeMutex => if w.place.Locking? then w.(place := Inspecting(w.place.expiring)) else w
    case LoadInFlight =>
      if !w.place.Inspecting? then w
      else if w.shared.inFlight > 0 then w.(timer := true, place := Selecting)
      else w.(place := Comparing(w.place.expiring))
    case CompareSeq =>
      if !w.place.Comparing? then w
      else if w.shared.activitySeq != w.place.expiring then w.(timer := true, place := Selecting)
      else w.(place := Stopping(w.place.expiring))
    case WorkersStop => if w.place.Stopping? then w.(workers := false, place := Rechecking(w.place.expiring)) else w
    case RecheckSeq =>
      if !w.place.Rechecking? then w
      else if w.shared.activitySeq != w.place.expiring then w.(place := Selecting)
      else w.(place := Handling(w.place.expiring))
    case HandlersDone => if w.place.Handling? then w.(place := Selecting) else w
    case ContextEnds => if w.place.Selecting? then w.(place := Draining) else w
    case Drained => if w.place.Draining? then w.(workers := false, place := LastHandling) else w
    case LastDone => if w.place.LastHandling? then w.(place := Stopped) else w
  }

  function After(steps: seq<Step>): World {
    if steps == [] then World(Counters(0, false, 0), {}, {}, {}, Selecting, 0, false, false)
    else Next(After(steps[..|steps| - 1]), steps[|steps| - 1])
  }

  /** Activity that the loop has not handled will wake it. */
  predicate WakeUpPending(w: World) {
    w.shared.activitySeq != w.handled ==> w.shared.signal || w.recorders != {} || w.place.Reloading?
  }

  /** Past the in-flight check nothing is in flight until the mutex is released. */
  predicate IdlePathQuiet(w: World) {
    w.place.Comparing? || w.place.Stopping? || w.place.Rechecking? || w.place.Handling? ==> w.open == {}
  }

  predicate Sound(w: World) {
    && WakeUpPending(w) && IdlePathQuiet(w)
    && w.shared.inFlight == |w.open| && w.open !! w.closed
    && w.handled <= w.shared.activitySeq
    && (w.place.Locking? || Locked(w) ==> w.place.expiring == w.handled)
    && (w.place.Rechecking? || w.place.Handling? || w.place.LastHandling? || w.place.Stopped? ==> !w.workers)
    && (w.place.Selecting? && w.workers ==> w.timer)
  }

  predicate OfRequests(step: Step) { step.Add? || step.Send? || step.Begin? || step.Finish? }

  lemma RequestSound(w: World, step: Step)
    requires Sound(w) && OfRequests(step)
    ensures Sound(Next(w, step))
  {
  }

  lemma LoopSound(w: World, step: Step)
    requires Sound(w) && !OfRequests(step)
    ensures Sound(Next(w, step))
  {
  }

  lemma StepSound(w: World, step: Step)
    requires Sound(w)
    ensures Sound(Next(w, step))
  {
    if OfRequests(step) { RequestSound(w, step); } else { LoopSound(w, step); }
  }

  lemma {:induction false} RunsSound(steps: seq<Step>)
    ensures Sound(After(steps))
  {
    if steps != [] {
      RunsSound(steps[..|steps| - 1]);
      StepSound(After(steps[..|steps| - 1]), steps[|steps| - 1]);
    }
  }

  /** No lost wake-up: whenever the recorded activity differs from the handled one, a signal is queued, a
      recorder is between its two operations, or the loop is about to reload the sequence. */
  lemma {:induction false} NoLostWakeUp(steps: seq<Step>)
    requires After(steps).shared.activitySeq != After(steps).handled
    ensures After(steps).shared.signal || After(steps).recorders != {} || After(steps).place.Reloading?
  {
    RunsSound(steps);
  }

  /** When the loop waits and everything recorded has been sent, either nothing is unhandled or the next two
      steps of the loop handle it all and leave the workers running under an armed timer. */
  lemma {:induction false} WakeUpIsServed(steps: seq<Step>)
    requires After(steps).place.Selecting? && After(steps).recorders == {}
    ensures var w := After(steps);
            || w.shared.activitySeq == w.handled
            || (var v := Next(Next(w, TakeSignal), Reload);
                v.handled == v.shared.activitySeq == w.shared.activitySeq && v.workers && v.timer && v.place.Selecting?)
  {
    RunsSound(steps);
  }

  /** Running workers are never forgotten: while the loop waits, the idle timer is armed. */
  lemma {:induction false} WorkersAreTimed(steps: seq<Step>)
    requires After(steps).place.Selecting? && After(steps).workers
    ensures After(steps).timer
  {
    RunsSound(steps);
  }

  lemma HandlersHoldOn(w: World, step: Step)
    requires Sound(w) && w.place.Handling? && step != HandlersDone
    ensures Next(w, step).place == w.place
  {
  }

  /** Exclusive idling: handlers on the idle path run with no request in flight and the workers stopped; no
      step but their own completion ends them, and until then no request begins. */
  lemma {:induction false} IdlingIsExclusive(steps: seq<Step>, more: seq<Step>)
    requires After(steps).place.Handling? && HandlersDone !in more
    ensures After(steps + more).place == After(steps).place
    ensures var w := After(steps + more); w.shared.inFlight == 0 && w.open == {} && !w.workers
    decreases |more|
  {
    if more == [] {
      assert steps + more == steps;
    } else {
      var earlier, last := more[..|more| - 1], more[|more| - 1];
      IdlingIsExclusive(steps, earlier);
      assert steps + more == steps + earlier + [last];
      AfterOneMore(steps + earlier, last);
      RunsSound(steps + earlier);
      HandlersHoldOn(After(steps + earlier), last);
    }
    RunsSound(steps + more);
  }

  lemma AfterOneMore(steps: seq<Step>, step: Step)
    ensures After(steps + [step]) == Next(After(steps), step)
  {
    assert (steps + [step])[..|steps|] == steps;
  }

  /** Handlers start only if nothing was recorded since the activity whose grace period expired. */
  lemma {:induction false} IdlesOnlyWhenUnchanged(steps: seq<Step>, step: Step)
    requires !After(steps).place.Handling? && Next(After(steps), step).place.Handling?
    ensures After(steps).shared.activitySeq == After(steps).handled
  {
    RunsSound(steps);
  }

  /** On the shutdown path the handlers may meet a request in flight: only the idle path is exclusive. */
  lemma ShutdownIsNotExclusive()
    ensures var w := After([Begin(1), ContextEnds, Drained]); w.place.LastHandling? && w.shared.inFlight == 1
  {
    var a, b, c := [Begin(1)], [Begin(1), ContextEnds], [Begin(1), ContextEnds, Drained];
    assert a[..0] == [] && b[..1] == a && c[..2] == b;
    assert After(a) == Next(After([]), Begin(1));
    assert After(b) == Next(After(a), ContextEnds);
    assert After(c) == Next(After(b), Drained);
  }

  // ---- The loop gets there ----

  /** The loop after its timer, as far as it goes by itself; steps its place does not call for do nothing. */
  function AfterTimer(w: World): World {
    Next(Next(Next(Next(Next(Next(w, TimerFires), TakeMutex), LoadInFlight), CompareSeq), WorkersStop), RecheckSeq)
  }

  /** An expired grace period is acted on: with nothing in flight and nothing recorded since, the workers are stopped
      and the handlers run; otherwise the workers go on and the timer is armed again. */
  lemma {:induction false} TimerIsHonoured(steps: seq<Step>)
    requires After(steps).place.Selecting? && After(steps).timer
    ensures var w, v := After(steps), AfterTimer(After(steps));
            && v.shared == w.shared && v.handled == w.handled && v.open == w.open
            && (if w.shared.inFlight == 0 && w.shared.activitySeq == w.handled then
                  v.place.Handling? && !v.workers && Next(v, HandlersDone).place.Selecting?
                else v.place.Selecting? && v.timer && v.workers == w.workers)
  {
    RunsSound(steps);
  }

  /** Requests are counted: a request that may begin is in flight until it finishes, and recording activity raises the
      sequence by one and leaves a signal. */
  lemma {:induction false} RequestsCount(steps: seq<Step>, l: int, r: int)
    ensures var w := After(steps);
            && (!Locked(w) && l !in w.open && l !in w.closed ==>
                  && Next(w, Begin(l)).shared.inFlight == w.shared.inFlight + 1
                  && Next(Next(w, Begin(l)), Finish(l)).shared.inFlight == w.shared.inFlight)
            && (r !in w.recorders ==>
                  && Next(w, Add(r)).shared.activitySeq == w.shared.activitySeq + 1
                  && Next(Next(w, Add(r)), Send(r)).shared.signal
                  && Next(Next(w, Add(r)), Send(r)).recorders == w.recorders)
            && (w.place.Selecting? ==> Next(Next(Next(w, ContextEnds), Drained), LastDone).place.Stopped?)
  {
  }
}
