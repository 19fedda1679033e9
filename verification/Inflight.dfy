/** Coalescing of identical work in flight (internal/warwick/inflight.go). Each locked section is one atomic
    step; callers and producers take them in any interleaving. */
module Inflight {
  import opened Domain

  /** A producer. `cancelled` is its context, cancelled by the last leaver or after the producer finished. */
  datatype Call = Call(key: string, waiters: nat, completed: bool, cancelled: bool, result: Option<int>)

  /** `calls` is the map of joinable calls; `table` holds every call ever started. */
  datatype Group = Group(calls: map<string, nat>, table: seq<Call>)

  ghost predicate Points(g: Group) {
    forall k :: k in g.calls ==> g.calls[k] < |g.table|
  }

  // ---- The three locked sections ----

  function Joined(g: Group, key: string): Group
    requires Points(g)
  {
    if key in g.calls then
      var c := g.calls[key];
      g.(table := g.table[c := g.table[c].(waiters := g.table[c].waiters + 1)])
    else Group(g.calls[key := |g.table|], g.table + [Call(key, 1, false, false, None)])
  }

  function JoinedCall(g: Group, key: string): nat { if key in g.calls then g.calls[key] else |g.table| }

  function Dropped(calls: map<string, nat>, key: string, c: nat): map<string, nat> {
    if key in calls && calls[key] == c then calls - {key} else calls
  }

  function Completed(g: Group, c: nat, result: int): Group
    requires c < |g.table|
  {
    Group(Dropped(g.calls, g.table[c].key, c), g.table[c := g.table[c].(result := Some(result), completed := true)])
  }

  function Left(g: Group, c: nat): Group
    requires c < |g.table|
  {
    var call := g.table[c];
    if call.completed || call.waiters == 0 then g
    else if call.waiters > 1 then g.(table := g.table[c := call.(waiters := call.waiters - 1)])
    else Group(Dropped(g.calls, call.key, c), g.table[c := call.(waiters := 0, cancelled := true)])
  }

  class InflightGroup {
    var calls: map<string, nat>
    var table: seq<Call>

    function State(): Group
      reads this
    {
      Group(calls, table)
    }

    constructor ()
      ensures State() == Group(map[], [])
    {
      calls, table := map[], [];
    }

    /** The entry of Do: join the call of this key or start one. */
    method Join(key: string) returns (c: nat, shared: bool)
      requires Points(State())
      modifies this
      ensures State() == Joined(old(State()), key) && c == JoinedCall(old(State()), key)
      ensures shared <==> key in old(calls)
    {
      shared := key in calls;
      if !shared {
        table := table + [Call(key, 0, false, false, None)];
        calls := calls[key := |table| - 1];
      }
      c := calls[key];
      table := table[c := table[c].(waiters := table[c].waiters + 1)];
    }

    method Complete(c: nat, result: int)
      requires c < |table|
      modifies this
      ensures State() == Completed(old(State()), c, result)
    {
      var key := table[c].key;
      table := table[c := table[c].(result := Some(result), completed := true)];
      if key in calls && calls[key] == c { calls := calls - {key}; }
    }

    method Leave(c: nat)
      requires c < |table|
      modifies this
      ensures State() == Left(old(State()), c)
    {
      if table[c].completed || table[c].waiters == 0 { return; }
      table := table[c := table[c].(waiters := table[c].waiters - 1)];
      if table[c].waiters == 0 {
        var key := table[c].key;
        if key in calls && calls[key] == c { calls := calls - {key}; }
        table := table[c := table[c].(cancelled := true)];
      }
    }
  }

  // ---- Callers and producers ----

  /** `Leaving` has seen its own context end and is about to take the lock. */
  datatype Stage = Waiting | Leaving | OwnError | Got(result: int)

  datatype Caller = Caller(call: nat, stage: Stage)

  datatype World = World(group: Group, callers: map<int, Caller>)

  datatype Step =
    | Do(caller: int, key: string)
    | ContextEnds(caller: int)
    | Leave(caller: int)
    | Receive(caller: int)
    | Produce(call: nat, result: int)
    | Retire(call: nat)

  function Next(w: World, step: Step): World
    requires Points(w.group)
  {
    match step
    case Do(x, key) =>
      if x in w.callers then w
      else World(Joined(w.group, key), w.callers[x := Caller(JoinedCall(w.group, key), Waiting)])
    case ContextEnds(x) =>
      if x in w.callers && w.callers[x].stage.Waiting?
      then w.(callers := w.callers[x := w.callers[x].(stage := Leaving)]) else w
    case Leave(x) =>
      if x in w.callers && w.callers[x].stage.Leaving? && w.callers[x].call < |w.group.table|
      then World(Left(w.group, w.callers[x].call), w.callers[x := w.callers[x].(stage := OwnError)]) else w
    case Receive(x) =>
      if x in w.callers && w.callers[x].stage.Waiting? && w.callers[x].call < |w.group.table|
         && w.group.table[w.callers[x].call].completed && w.group.table[w.callers[x].call].result.Some?
      then w.(callers := w.callers[x := w.callers[x].(stage := Got(w.group.table[w.callers[x].call].result.value))])
      else w
    case Produce(c, result) =>
      if c < |w.group.table| && !w.group.table[c].completed then w.(group := Completed(w.group, c, result)) else w
    case Retire(c) =>
      if c < |w.group.table| && w.group.table[c].completed
      then w.(group := w.group.(table := w.group.table[c := w.group.table[c].(cancelled := true)])) else w
  }

  // ---- Invariant ----

  /** The callers still counted by a call. */
  function Present(callers: map<int, Caller>, c: nat): set<int> {
    set x | x in callers && callers[x].call == c && (callers[x].stage.Waiting? || callers[x].stage.Leaving?)
  }

  ghost predicate CallSound(w: World, c: nat)
    requires c < |w.group.table|
  {
    var call := w.group.table[c];
    && (!call.completed ==> call.waiters == |Present(w.callers, c)|)
    && (!call.completed ==> (call.cancelled <==> call.waiters == 0))
    && (!call.completed && !call.cancelled <==> call.key in w.group.calls && w.group.calls[call.key] == c)
    && (call.completed ==> call.result.Some?)
  }

  ghost predicate CallerSound(w: World, x: int)
    requires x in w.callers
  {
    && w.callers[x].call < |w.group.table|
    && (w.callers[x].stage.Got? ==>
          && w.group.table[w.callers[x].call].completed
          && w.group.table[w.callers[x].call].result == Some(w.callers[x].stage.result))
  }

  ghost predicate MapSound(g: Group) {
    forall k :: k in g.calls ==> g.calls[k] < |g.table| && g.table[g.calls[k]].key == k
  }

  ghost predicate Sound(w: World) {
    && MapSound(w.group)
    && (forall c :: 0 <= c < |w.group.table| ==> CallSound(w, c))
    && (forall x :: x in w.callers ==> CallerSound(w, x))
  }

  lemma DoSound(w: World, x: int, key: string)
    requires Sound(w) && x !in w.callers
    ensures Sound(Next(w, Do(x, key)))
  {
    var w' := Next(w, Do(x, key));
    var joined := JoinedCall(w.group, key);
    forall c | 0 <= c < |w'.group.table| ensures CallSound(w', c) {
      if c < |w.group.table| { assert CallSound(w, c); }
      if c == joined {
        assert Present(w'.callers, c) == Present(w.callers, c) + {x};
        if c == |w.group.table| { NobodyYet(w); }
      } else {
        assert Present(w'.callers, c) == Present(w.callers, c);
      }
    }
    forall y | y in w'.callers ensures CallerSound(w', y) {
      if y in w.callers { assert CallerSound(w, y); }
    }
  }

  lemma NobodyYet(w: World)
    requires Sound(w)
    ensures Present(w.callers, |w.group.table|) == {}
  {
    forall x | x in w.callers ensures w.callers[x].call != |w.group.table| { assert CallerSound(w, x); }
  }

  lemma LeaveSound(w: World, x: int)
    requires Sound(w) && x in w.callers && w.callers[x].stage.Leaving?
    ensures Sound(Next(w, Leave(x)))
  {
    var w' := Next(w, Leave(x));
    var left := w.callers[x].call;
    assert CallerSound(w, x) && CallSound(w, left);
    assert x in Present(w.callers, left);
    forall c | 0 <= c < |w'.group.table| ensures CallSound(w', c) {
      assert CallSound(w, c);
      if c == left {
        assert Present(w'.callers, c) == Present(w.callers, c) - {x};
      } else {
        assert Present(w'.callers, c) == Present(w.callers, c);
      }
    }
    forall y | y in w'.callers ensures CallerSound(w', y) { assert CallerSound(w, y); }
  }

  /** The other steps change no caller count of an unfinished call. */
  lemma OtherSound(w: World, step: Step)
    requires Sound(w) && !step.Do? && !step.Leave?
    ensures Sound(Next(w, step))
  {
    var w' := Next(w, step);
    forall c | 0 <= c < |w'.group.table| ensures CallSound(w', c) {
      assert CallSound(w, c);
      if !w'.group.table[c].completed { assert Present(w'.callers, c) == Present(w.callers, c); }
    }
    forall y | y in w'.callers ensures CallerSound(w', y) { assert CallerSound(w, y); }
  }

  lemma StepSound(w: World, step: Step)
    requires Sound(w)
    ensures Sound(Next(w, step))
  {
    match step {
      case Do(x, key) => if x !in w.callers { DoSound(w, x, key); }
      case Leave(x) => if x in w.callers && w.callers[x].stage.Leaving? { LeaveSound(w, x); }
      case _ => OtherSound(w, step);
    }
  }

  ghost function After(steps: seq<Step>): (w: World)
    ensures Sound(w)
  {
    if steps == [] then World(Group(map[], []), map[])
    else
      var w := After(steps[..|steps| - 1]);
      StepSound(w, steps[|steps| - 1]);
      Next(w, steps[|steps| - 1])
  }

  /** A caller never joins a completed or cancelled producer. */
  lemma {:induction false} JoinsLive(steps: seq<Step>, x: int, key: string)
    requires x !in After(steps).callers
    ensures var w := Next(After(steps), Do(x, key));
            var call := w.group.table[w.callers[x].call];
            call.key == key && !call.completed && !call.cancelled
  {
    var w := After(steps);
    if key in w.group.calls { assert CallSound(w, w.group.calls[key]); }
  }

  /** Each key has at most one live, uncancelled producer. */
  lemma {:induction false} OneLiveProducer(steps: seq<Step>, b: nat, c: nat)
    requires b < |After(steps).group.table| && c < |After(steps).group.table|
    requires var t := After(steps).group.table;
             t[b].key == t[c].key && !t[b].completed && !t[b].cancelled && !t[c].completed && !t[c].cancelled
    ensures b == c
  {
    assert CallSound(After(steps), b) && CallSound(After(steps), c);
  }

  /** A producer is cancelled before it completes exactly when every caller that joined it has left, so nobody
      waits for a cancelled producer. */
  lemma {:induction false} CancelledOnlyWhenAbandoned(steps: seq<Step>, c: nat)
    requires c < |After(steps).group.table| && !After(steps).group.table[c].completed
    ensures var w := After(steps);
            w.group.table[c].cancelled <==>
            forall x :: x in w.callers && w.callers[x].call == c ==> w.callers[x].stage.OwnError?
  {
    var w := After(steps);
    assert CallSound(w, c);
    if w.group.table[c].cancelled {
      forall x | x in w.callers && w.callers[x].call == c ensures w.callers[x].stage.OwnError? {
        assert CallerSound(w, x);
        assert x !in Present(w.callers, c);
      }
    } else {
      var x := PickOne(Present(w.callers, c));
      assert w.callers[x].call == c && !w.callers[x].stage.OwnError?;
    }
  }

  /** Whatever a caller gets is its own context error or the result of the call it joined. */
  lemma {:induction false} ResultIsOfJoinedCall(steps: seq<Step>, x: int)
    requires x in After(steps).callers && After(steps).callers[x].stage.Got?
    ensures var w := After(steps);
            && w.callers[x].call < |w.group.table|
            && w.group.table[w.callers[x].call].result == Some(w.callers[x].stage.result)
  {
    assert CallerSound(After(steps), x);
  }

  /** The call a caller joined and, once produced, its result never change. */
  lemma {:induction false} JoinedForGood(steps: seq<Step>, more: seq<Step>, x: int)
    requires x in After(steps).callers
    ensures x in After(steps + more).callers && After(steps + more).callers[x].call == After(steps).callers[x].call
    ensures |After(steps).group.table| <= |After(steps + more).group.table|
    ensures forall c :: 0 <= c < |After(steps).group.table| && After(steps).group.table[c].completed ==>
              After(steps + more).group.table[c].completed
              && After(steps + more).group.table[c].result == After(steps).group.table[c].result
    decreases |more|
  {
    if more == [] {
      assert steps + more == steps;
    } else {
      var earlier := more[..|more| - 1];
      JoinedForGood(steps, earlier, x);
      assert (steps + more)[..|steps + more| - 1] == steps + earlier;
      assert (steps + more)[|steps + more| - 1] == more[|more| - 1];
      KeepsResults(After(steps + earlier), more[|more| - 1]);
    }
  }

  lemma KeepsResults(w: World, step: Step)
    requires Sound(w)
    ensures var w' := Next(w, step);
            && |w.group.table| <= |w'.group.table|
            && (forall x :: x in w.callers ==> x in w'.callers && w'.callers[x].call == w.callers[x].call)
            && (forall c :: 0 <= c < |w.group.table| && w.group.table[c].completed ==>
                  w'.group.table[c].completed && w'.group.table[c].result == w.group.table[c].result)
  {
  }

  // ---- Sharing and delivery ----

  /** A caller shares the live producer of its key if there is one, and starts one otherwise. */
  lemma {:induction false} LiveIsShared(steps: seq<Step>, x: int, key: string, c: nat)
    requires x !in After(steps).callers && c < |After(steps).group.table|
    requires After(steps).group.table[c].key == key
    ensures var w, call := After(steps), After(steps).group.table[c];
            var w' := Next(w, Do(x, key));
            && x in w'.callers && w'.callers[x].stage.Waiting?
            && (!call.completed && !call.cancelled ==>
                  w'.callers[x].call == c && |w'.group.table| == |w.group.table|
                  && w'.group.table[c] == call.(waiters := call.waiters + 1))
  {
    assert CallSound(After(steps), c);
  }

  lemma {:induction false} NoneIsStarted(steps: seq<Step>, x: int, key: string)
    requires x !in After(steps).callers
    requires forall c :: 0 <= c < |After(steps).group.table| && After(steps).group.table[c].key == key ==>
               After(steps).group.table[c].completed || After(steps).group.table[c].cancelled
    ensures var w := After(steps);
            var w' := Next(w, Do(x, key));
            && x in w'.callers && w'.callers[x] == Caller(|w.group.table|, Waiting)
            && w'.group.table == w.group.table + [Call(key, 1, false, false, None)]
  {
    MappedAreLive(After(steps));
  }

  lemma MappedAreLive(w: World)
    requires Sound(w)
    ensures forall k :: k in w.group.calls ==>
              && w.group.calls[k] < |w.group.table| && w.group.table[w.group.calls[k]].key == k
              && !w.group.table[w.group.calls[k]].completed && !w.group.table[w.group.calls[k]].cancelled
  {
    forall k | k in w.group.calls
      ensures !w.group.table[w.group.calls[k]].completed && !w.group.table[w.group.calls[k]].cancelled
    {
      assert CallSound(w, w.group.calls[k]);
    }
  }

  /** Every caller still waiting receives exactly what its call produced, however many there are; one whose own context
      has ended leaves with its own error. */
  lemma {:induction false} ResultsAreDelivered(steps: seq<Step>, x: int, result: int)
    requires x in After(steps).callers && After(steps).callers[x].stage.Waiting?
    ensures var w := After(steps);
            var c := w.callers[x].call;
            && c < |w.group.table|
            && var produced := Next(w, Produce(c, result));
               && (!w.group.table[c].completed ==>
                     && produced.group.table[c].result == Some(result) && produced.callers == w.callers
                     && Next(produced, Receive(x)).callers == w.callers[x := Caller(c, Got(result))])
               && Next(w, ContextEnds(x)).callers == w.callers[x := Caller(c, Leaving)]
               && Next(Next(w, ContextEnds(x)), Leave(x)).callers == w.callers[x := Caller(c, OwnError)]
               && (w.group.table[c].completed ==> Next(Next(w, ContextEnds(x)), Leave(x)).group == w.group)
  {
    assert CallerSound(After(steps), x);
  }
}
