/** The pool of upstream sessions (internal/warwick/session_pool.go): one bounded queue of session indexes per
    tier, drained by acquisitions and refilled by failures and releases. */
module SessionPool {

  datatype Tier = QR | Teacher | Interactive

  datatype Sizes = Sizes(qr: nat, teacher: nat, interactive: nat)

  function Size(s: Sizes, t: Tier): nat {
    match t case QR => s.qr case Teacher => s.teacher case Interactive => s.interactive
  }

  function Start(s: Sizes, t: Tier): nat {
    match t case QR => 0 case Teacher => s.qr case Interactive => s.qr + s.teacher
  }

  /** The indexes of a tier. */
  predicate Belongs(s: Sizes, t: Tier, i: int) { Start(s, t) <= i < Start(s, t) + Size(s, t) }

  function Range(start: nat, size: nat): seq<int> { seq(size, n => start + n) }

  /** The three channels of indexes. */
  datatype Queues = Queues(qr: seq<int>, teacher: seq<int>, interactive: seq<int>)

  function Queue(q: Queues, t: Tier): seq<int> {
    match t case QR => q.qr case Teacher => q.teacher case Interactive => q.interactive
  }

  function WithQueue(q: Queues, t: Tier, ids: seq<int>): Queues {
    match t case QR => q.(qr := ids) case Teacher => q.(teacher := ids) case Interactive => q.(interactive := ids)
  }

  function Received(q: Queues, t: Tier): Queues
    requires Queue(q, t) != []
  {
    WithQueue(q, t, Queue(q, t)[1..])
  }

  function Sent(q: Queues, t: Tier, index: int): Queues { WithQueue(q, t, Queue(q, t) + [index]) }

  predicate HasRoom(q: Queues, s: Sizes, t: Tier) { |Queue(q, t)| < Size(s, t) }

  function Full(s: Sizes): Queues {
    Queues(Range(0, s.qr), Range(s.qr, s.teacher), Range(s.qr + s.teacher, s.interactive))
  }

  // ---- The pool in place ----

  /** An acquired session handle. */
  class SessionRef {
    const tier: Tier
    const index: int
    var released: bool

    constructor (tier: Tier, index: int)
      ensures this.tier == tier && this.index == index && !released
    {
      this.tier, this.index, released := tier, index, false;
    }
  }

  class Pool {
    const sizes: Sizes
    var qrAvailable: seq<int>
    var teacherAvailable: seq<int>
    var interactiveAvailable: seq<int>

    function Channels(): Queues
      reads this
    {
      Queues(qrAvailable, teacherAvailable, interactiveAvailable)
    }

    /** Every tier starts with all of its indexes queued. */
    constructor (sizes: Sizes)
      ensures this.sizes == sizes && Channels() == Full(sizes)
    {
      this.sizes := sizes;
      qrAvailable, teacherAvailable, interactiveAvailable := [], [], [];
      new;
      for i := 0 to sizes.qr
        invariant qrAvailable == Range(0, i) && teacherAvailable == [] && interactiveAvailable == []
      {
        qrAvailable := qrAvailable + [i];
      }
      for i := 0 to sizes.teacher
        invariant qrAvailable == Range(0, sizes.qr) && teacherAvailable == Range(sizes.qr, i)
        invariant interactiveAvailable == []
      {
        teacherAvailable := teacherAvailable + [sizes.qr + i];
      }
      for i := 0 to sizes.interactive
        invariant qrAvailable == Range(0, sizes.qr) && teacherAvailable == Range(sizes.qr, sizes.teacher)
        invariant interactiveAvailable == Range(sizes.qr + sizes.teacher, i)
      {
        interactiveAvailable := interactiveAvailable + [sizes.qr + sizes.teacher + i];
      }
    }

    method Receive(t: Tier) returns (index: int)
      requires Queue(Channels(), t) != []
      modifies this
      ensures index == Queue(old(Channels()), t)[0] && Channels() == Received(old(Channels()), t)
    {
      index := Queue(Channels(), t)[0];
      match t
      case QR => qrAvailable := qrAvailable[1..];
      case Teacher => teacherAvailable := teacherAvailable[1..];
      case Interactive => interactiveAvailable := interactiveAvailable[1..];
    }

    /** Send on the channel of a tier; on a full channel the sender blocks and nothing is sent. */
    method Send(t: Tier, index: int) returns (sent: bool)
      modifies this
      ensures sent == HasRoom(old(Channels()), sizes, t)
      ensures Channels() == if sent then Sent(old(Channels()), t, index) else old(Channels())
    {
      sent := |Queue(Channels(), t)| < Size(sizes, t);
      if sent {
        match t
        case QR => qrAvailable := qrAvailable + [index];
        case Teacher => teacherAvailable := teacherAvailable + [index];
        case Interactive => interactiveAvailable := interactiveAvailable + [index];
      }
    }

    /** Acquire: take the head of the queue, and put it back at the tail when login fails or the caller is gone. */
    method Acquire(tier: Tier, loginOk: bool) returns (ref: SessionRef?)
      requires |Queue(Channels(), tier)| <= Size(sizes, tier)
      modifies this
      ensures ref != null <==> loginOk && Queue(old(Channels()), tier) != []
      ensures ref != null ==>
                && fresh(ref) && !ref.released && ref.tier == tier && ref.index == Queue(old(Channels()), tier)[0]
                && Channels() == Received(old(Channels()), tier)
      ensures ref == null && Queue(old(Channels()), tier) != [] ==>
                Channels() == Sent(Received(old(Channels()), tier), tier, Queue(old(Channels()), tier)[0])
      ensures Queue(old(Channels()), tier) == [] ==> Channels() == old(Channels())
    {
      if Queue(Channels(), tier) == [] { return null; }
      var index := Receive(tier);
      if !loginOk {
        var _ := Send(tier, index);
        return null;
      }
      ref := new SessionRef(tier, index);
    }

    /** Release: only the first of any number of releases returns the index. `done` says that it did not block,
        which ReturnNeverBlocks shows of every interleaving. */
    method Release(ref: SessionRef) returns (done: bool)
      modifies this, ref
      ensures ref.released
      ensures done <==> old(ref.released) || HasRoom(old(Channels()), sizes, ref.tier)
      ensures Channels() == if !old(ref.released) && done then Sent(old(Channels()), ref.tier, ref.index)
                            else old(Channels())
    {
      if ref.released { return true; }
      ref.released := true;
      done := Send(ref.tier, ref.index);
    }
  }

  // ---- Any interleaving ----

  /** An acquisition from taking an index to giving it back. `Returning` is about to send on the channel, after
      a failed login or after the released flag was swapped. */
  datatype Stage = Acquiring | Handle | Returning | Returned

  datatype Holder = Holder(tier: Tier, index: int, stage: Stage)

  datatype State = State(queues: Queues, holders: map<int, Holder>)

  datatype Step =
    | Take(holder: int, tier: Tier)
    | LoginFails(holder: int)
    | LoginWorks(holder: int)
    | Release(holder: int)
    | Send(holder: int)

  function Staged(s: State, x: int, stage: Stage): State
    requires x in s.holders
  {
    s.(holders := s.holders[x := s.holders[x].(stage := stage)])
  }

  /** A send on a full channel waits: the step does nothing. */
  function Next(s: State, sizes: Sizes, step: Step): State {
    match step
    case Take(x, t) =>
      if x in s.holders || Queue(s.queues, t) == [] then s
      else State(Received(s.queues, t), s.holders[x := Holder(t, Queue(s.queues, t)[0], Acquiring)])
    case LoginFails(x) => if x in s.holders && s.holders[x].stage.Acquiring? then Staged(s, x, Returning) else s
    case LoginWorks(x) => if x in s.holders && s.holders[x].stage.Acquiring? then Staged(s, x, Handle) else s
    case Release(x) => if x in s.holders && s.holders[x].stage.Handle? then Staged(s, x, Returning) else s
    case Send(x) =>
      if x in s.holders && s.holders[x].stage.Returning? && HasRoom(s.queues, sizes, s.holders[x].tier) then
        Staged(s.(queues := Sent(s.queues, s.holders[x].tier, s.holders[x].index)), x, Returned)
      else s
  }

  function Initial(sizes: Sizes): State {
    State(Full(sizes), map[])
  }

  function After(sizes: Sizes, steps: seq<Step>): State {
    if steps == [] then Initial(sizes) else Next(After(sizes, steps[..|steps| - 1]), sizes, steps[|steps| - 1])
  }

  // ---- Conservation ----

  /** The acquisitions and handles of a tier that have not given their index back. */
  function Live(s: State, t: Tier): set<int> {
    set x | x in s.holders && s.holders[x].tier == t && !s.holders[x].stage.Returned?
  }

  ghost predicate Somewhere(s: State, t: Tier, i: int) {
    i in Queue(s.queues, t) || exists x :: x in Live(s, t) && s.holders[x].index == i
  }

  ghost predicate TierSound(s: State, sizes: Sizes, t: Tier) {
    && (forall a, b :: 0 <= a < b < |Queue(s.queues, t)| ==> Queue(s.queues, t)[a] != Queue(s.queues, t)[b])
    && (forall i :: i in Queue(s.queues, t) ==> Belongs(sizes, t, i))
    && (forall x :: x in Live(s, t) ==>
          Belongs(sizes, t, s.holders[x].index) && s.holders[x].index !in Queue(s.queues, t))
    && (forall x, y :: x in Live(s, t) && y in Live(s, t) && x != y ==> s.holders[x].index != s.holders[y].index)
    && (forall i :: Belongs(sizes, t, i) ==> Somewhere(s, t, i))
    && |Queue(s.queues, t)| + |Live(s, t)| == Size(sizes, t)
  }

  lemma InitiallySound(sizes: Sizes, t: Tier)
    ensures TierSound(Initial(sizes), sizes, t)
  {
    var s := Initial(sizes);
    assert Live(s, t) == {};
    forall i | Belongs(sizes, t, i) ensures i in Queue(s.queues, t) {
      assert Queue(s.queues, t)[i - Start(sizes, t)] == i;
    }
  }

  /** Same queue, same live holders with the same indexes. */
  lemma UntouchedSound(s: State, s': State, sizes: Sizes, t: Tier)
    requires TierSound(s, sizes, t) && Queue(s'.queues, t) == Queue(s.queues, t) && Live(s', t) == Live(s, t)
    requires forall x :: x in Live(s, t) ==> s'.holders[x].index == s.holders[x].index
    ensures TierSound(s', sizes, t)
  {
    forall i | Belongs(sizes, t, i) ensures Somewhere(s', t, i) { assert Somewhere(s, t, i); }
  }

  lemma TakePlaces(s: State, sizes: Sizes, x: int, t: Tier)
    requires TierSound(s, sizes, t) && x !in s.holders && Queue(s.queues, t) != []
    ensures var s' := Next(s, sizes, Take(x, t));
            && Live(s', t) == Live(s, t) + {x} && x !in Live(s, t)
            && Queue(s'.queues, t) == Queue(s.queues, t)[1..] && s'.holders[x].index == Queue(s.queues, t)[0]
            && forall y :: y in Live(s, t) ==> s'.holders[y] == s.holders[y]
  {
  }

  lemma TailDistinct(q: seq<int>)
    requires q != [] && forall a, b :: 0 <= a < b < |q| ==> q[a] != q[b]
    ensures q[0] !in q[1..] && forall i :: i in q <==> i == q[0] || i in q[1..]
    ensures forall a, b :: 0 <= a < b < |q[1..]| ==> q[1..][a] != q[1..][b]
  {
    assert q == [q[0]] + q[1..];
  }

  lemma TakeSound(s: State, sizes: Sizes, x: int, t: Tier)
    requires TierSound(s, sizes, t) && x !in s.holders && Queue(s.queues, t) != []
    ensures TierSound(Next(s, sizes, Take(x, t)), sizes, t)
  {
    var s' := Next(s, sizes, Take(x, t));
    TakePlaces(s, sizes, x, t);
    TailDistinct(Queue(s.queues, t));
    forall i | Belongs(sizes, t, i) ensures Somewhere(s', t, i) {
      assert Somewhere(s, t, i);
      if i == Queue(s.queues, t)[0] {
        assert x in Live(s', t);
      } else if i !in Queue(s.queues, t) {
        var y :| y in Live(s, t) && s.holders[y].index == i;
        assert y in Live(s', t) && s'.holders[y].index == i;
      }
    }
  }

  lemma SendSound(s: State, sizes: Sizes, x: int)
    requires x in s.holders && s.holders[x].stage.Returning? && TierSound(s, sizes, s.holders[x].tier)
    ensures HasRoom(s.queues, sizes, s.holders[x].tier)
    ensures TierSound(Next(s, sizes, Send(x)), sizes, s.holders[x].tier)
  {
    var t, index := s.holders[x].tier, s.holders[x].index;
    var s' := Next(s, sizes, Send(x));
    assert x in Live(s, t);
    assert |Live(s, t)| > 0;
    assert Live(s', t) == Live(s, t) - {x};
    assert Queue(s'.queues, t) == Queue(s.queues, t) + [index];
    forall i | Belongs(sizes, t, i) ensures Somewhere(s', t, i) {
      assert Somewhere(s, t, i);
      if i == index {
        assert Queue(s'.queues, t)[|Queue(s.queues, t)|] == i;
      } else if i !in Queue(s.queues, t) {
        var y :| y in Live(s, t) && s.holders[y].index == i;
        assert y in Live(s', t) && s'.holders[y].index == i;
      }
    }
  }

  ghost predicate Sound(s: State, sizes: Sizes) {
    TierSound(s, sizes, QR) && TierSound(s, sizes, Teacher) && TierSound(s, sizes, Interactive)
  }

  lemma StepSound(s: State, sizes: Sizes, step: Step, t: Tier)
    requires Sound(s, sizes)
    ensures TierSound(Next(s, sizes, step), sizes, t)
  {
    if step.Take? && step.tier == t {
      if step.holder !in s.holders && Queue(s.queues, t) != [] { TakeSound(s, sizes, step.holder, t); }
    } else if step.Send? && step.holder in s.holders && s.holders[step.holder].tier == t {
      if s.holders[step.holder].stage.Returning? { SendSound(s, sizes, step.holder); }
    } else {
      ElsewhereSound(s, sizes, step, t);
    }
  }

  /** Steps on another tier, and steps that only change a stage. */
  lemma ElsewhereSound(s: State, sizes: Sizes, step: Step, t: Tier)
    requires TierSound(s, sizes, t) && (step.Take? ==> step.tier != t)
    requires step.Send? && step.holder in s.holders ==> s.holders[step.holder].tier != t
    ensures TierSound(Next(s, sizes, step), sizes, t)
  {
    var s' := Next(s, sizes, step);
    assert Queue(s'.queues, t) == Queue(s.queues, t);
    assert Live(s', t) == Live(s, t);
    UntouchedSound(s, s', sizes, t);
  }

  lemma {:induction false} RunsSound(sizes: Sizes, steps: seq<Step>)
    ensures Sound(After(sizes, steps), sizes)
  {
    if steps == [] {
      InitiallySound(sizes, QR);
      InitiallySound(sizes, Teacher);
      InitiallySound(sizes, Interactive);
    } else {
      var s, step := After(sizes, steps[..|steps| - 1]), steps[|steps| - 1];
      RunsSound(sizes, steps[..|steps| - 1]);
      StepSound(s, sizes, step, QR);
      StepSound(s, sizes, step, Teacher);
      StepSound(s, sizes, step, Interactive);
    }
  }

  function HoldersOf(s: State, t: Tier, i: int): set<int> {
    set x | x in Live(s, t) && s.holders[x].index == i
  }

  /** In every interleaving each index of a tier is in exactly one place: once in the queue and held by nobody,
      or not queued and held by exactly one unreturned acquisition. Any other index is in neither. */
  lemma {:induction false} IndexesAreConserved(sizes: Sizes, steps: seq<Step>, t: Tier, i: int)
    ensures var s := After(sizes, steps);
            multiset(Queue(s.queues, t))[i] + |HoldersOf(s, t, i)| == if Belongs(sizes, t, i) then 1 else 0
  {
    RunsSound(sizes, steps);
    if Belongs(sizes, t, i) {
      OnePlace(After(sizes, steps), sizes, t, i);
    } else {
      NoPlace(After(sizes, steps), sizes, t, i);
    }
  }

  lemma NoPlace(s: State, sizes: Sizes, t: Tier, i: int)
    requires TierSound(s, sizes, t) && !Belongs(sizes, t, i)
    ensures multiset(Queue(s.queues, t))[i] == 0 && HoldersOf(s, t, i) == {}
  {
    assert i !in Queue(s.queues, t);
    forall x | x in Live(s, t) ensures x !in HoldersOf(s, t, i) {}
  }

  lemma OnePlace(s: State, sizes: Sizes, t: Tier, i: int)
    requires TierSound(s, sizes, t) && Belongs(sizes, t, i)
    ensures multiset(Queue(s.queues, t))[i] + |HoldersOf(s, t, i)| == 1
  {
    assert Somewhere(s, t, i);
    if i in Queue(s.queues, t) {
      OnceInQueue(Queue(s.queues, t), i);
      forall x | x in Live(s, t) ensures x !in HoldersOf(s, t, i) {}
      assert HoldersOf(s, t, i) == {};
    } else {
      var x :| x in Live(s, t) && s.holders[x].index == i;
      forall y | y in Live(s, t) ensures y in HoldersOf(s, t, i) <==> y == x {}
      assert HoldersOf(s, t, i) == {x};
    }
  }

  lemma {:induction false} OnceInQueue(q: seq<int>, i: int)
    requires i in q && forall a, b :: 0 <= a < b < |q| ==> q[a] != q[b]
    ensures multiset(q)[i] == 1
  {
    var n := |q| - 1;
    assert q == q[..n] + [q[n]];
    if q[n] == i {
      assert i !in q[..n];
    } else {
      OnceInQueue(q[..n], i);
    }
  }

  /** No session is handed out twice: two unreturned acquisitions never share an index, whatever their tiers. */
  lemma {:induction false} NoDoubleHandout(sizes: Sizes, steps: seq<Step>, x: int, y: int)
    requires var s := After(sizes, steps);
             x in s.holders && y in s.holders && x != y
             && !s.holders[x].stage.Returned? && !s.holders[y].stage.Returned?
    ensures After(sizes, steps).holders[x].index != After(sizes, steps).holders[y].index
  {
    RunsSound(sizes, steps);
    var s := After(sizes, steps);
    assert TierSound(s, sizes, s.holders[x].tier) && TierSound(s, sizes, s.holders[y].tier);
    assert x in Live(s, s.holders[x].tier) && y in Live(s, s.holders[y].tier);
  }

  /** Giving an index back never blocks: the channel has room for every returning index. */
  lemma {:induction false} ReturnNeverBlocks(sizes: Sizes, steps: seq<Step>, x: int)
    requires x in After(sizes, steps).holders && After(sizes, steps).holders[x].stage.Returning?
    ensures HasRoom(After(sizes, steps).queues, sizes, After(sizes, steps).holders[x].tier)
    ensures Next(After(sizes, steps), sizes, Send(x)).holders[x].stage.Returned?
  {
    RunsSound(sizes, steps);
    SendSound(After(sizes, steps), sizes, x);
  }

  // ---- Sessions come round ----

  /** First come, first served: an acquisition takes the index at the head of its tier's queue, whenever there is one,
      and nothing from another tier. */
  lemma TakesTheHead(s: State, sizes: Sizes, x: int, t: Tier)
    requires x !in s.holders
    ensures var s' := Next(s, sizes, Take(x, t));
            if Queue(s.queues, t) == [] then s' == s
            else
              && x in s'.holders && s'.holders[x] == Holder(t, Queue(s.queues, t)[0], Acquiring)
              && Queue(s.queues, t) == [s'.holders[x].index] + Queue(s'.queues, t)
              && forall u :: u != t ==> Queue(s'.queues, u) == Queue(s.queues, u)
  {
  }

  lemma ReturningComesBack(s: State, sizes: Sizes, x: int)
    requires x in s.holders && s.holders[x].stage.Returning? && HasRoom(s.queues, sizes, s.holders[x].tier)
    ensures var h, s' := s.holders[x], Next(s, sizes, Send(x));
            && Queue(s'.queues, h.tier) == Queue(s.queues, h.tier) + [h.index]
            && (forall u :: u != h.tier ==> Queue(s'.queues, u) == Queue(s.queues, u))
            && s'.holders == s.holders[x := Holder(h.tier, h.index, Returned)]
            && Next(s', sizes, Release(x)) == s' && Next(s', sizes, Send(x)) == s'
  {
  }

  /** Whoever holds an index gives it back: after a failed login, or a release of the handle, the next send puts it at
      the tail of its own tier's queue, and further releases do nothing. */
  lemma {:induction false} HeldComesBack(sizes: Sizes, steps: seq<Step>, x: int)
    requires x in After(sizes, steps).holders
    requires After(sizes, steps).holders[x].stage.Acquiring? || After(sizes, steps).holders[x].stage.Handle?
    ensures var s := After(sizes, steps);
            var h := s.holders[x];
            var s' := Next(Next(s, sizes, if h.stage.Acquiring? then LoginFails(x) else Release(x)), sizes, Send(x));
            && Queue(s'.queues, h.tier) == Queue(s.queues, h.tier) + [h.index]
            && (forall u :: u != h.tier ==> Queue(s'.queues, u) == Queue(s.queues, u))
            && s'.holders == s.holders[x := Holder(h.tier, h.index, Returned)]
            && Next(s', sizes, Release(x)) == s' && Next(s', sizes, Send(x)) == s'
  {
    var s := After(sizes, steps);
    var h := s.holders[x];
    var step := if h.stage.Acquiring? then LoginFails(x) else Release(x);
    var r := Staged(s, x, Returning);
    assert Next(s, sizes, step) == r;
    RoomForHolder(sizes, steps, x);
    ReturningComesBack(r, sizes, x);
  }

  lemma {:induction false} RoomForHolder(sizes: Sizes, steps: seq<Step>, x: int)
    requires x in After(sizes, steps).holders && !After(sizes, steps).holders[x].stage.Returned?
    ensures HasRoom(After(sizes, steps).queues, sizes, After(sizes, steps).holders[x].tier)
  {
    RunsSound(sizes, steps);
    var s := After(sizes, steps);
    assert x in Live(s, s.holders[x].tier);
  }

  /** A login that works makes the index a handle. */
  lemma LoginHands(s: State, sizes: Sizes, x: int)
    requires x in s.holders && s.holders[x].stage.Acquiring?
    ensures Next(s, sizes, LoginWorks(x)) ==
            s.(holders := s.holders[x := Holder(s.holders[x].tier, s.holders[x].index, Handle)])
  {
  }
}
