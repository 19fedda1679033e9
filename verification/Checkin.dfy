/** Idempotent check-in (internal/service/teacher.go, with the key rows of
    internal/db/snapshot_repository.go): one request at a time in place, then any number interleaved. */
module Checkin {
  import opened Domain

  /** The parameters a key is bound to. */
  datatype Wish = Wish(course: string, session: string, student: string, desired: bool, expected: Option<int>)

  datatype KeyStatus = Reserved | Confirmed | PendingVerification | Failed

  datatype Verdict = AlreadySatisfied | ConfirmedNow | Unverified

  datatype Answer = Answer(verdict: Verdict, checkedIn: bool, version: int, refreshPending: bool)

  datatype Row = Row(wish: Wish, status: KeyStatus, response: Option<Answer>)

  /** What one read of the roster says about the student. */
  datatype Sighting = Sighting(checkedIn: bool, version: int)

  datatype Reply = Answered(answer: Answer) | Conflict | UpstreamError | StudentError | StoreError

  /** How a request ends once it owns its key: what it stores under the key and what it replies. */
  datatype Ending = Ending(status: KeyStatus, response: Option<Answer>, reply: Reply)

  function Settled(row: Row, e: Ending): Row {
    if row.status.Reserved? then Row(row.wish, e.status, e.response) else row
  }

  function StoredReply(row: Row): Reply {
    if row.status.Failed? then UpstreamError
    else if row.response.None? then Answered(Answer(Unverified, false, 0, true))
    else Answered(row.response.value)
  }

  function FoundReply(row: Row, wish: Wish): Reply {
    if row.wish != wish then Conflict else StoredReply(row)
  }

  // ---- What the owner of a key does ----

  /** After the first read: stop, or write. A version conflict leaves the key reserved. */
  datatype Plan = Write(version: int) | Close(ending: Ending) | Abandon(reply: Reply)

  function PlanAfter(wish: Wish, seen: Option<Sighting>, snapshotMode: bool): Plan {
    match seen
    case None => Close(Ending(Failed, None, StudentError))
    case Some(s) =>
      if snapshotMode && wish.expected.Some? && wish.expected.value != s.version && s.checkedIn != wish.desired
      then Abandon(Conflict)
      else if s.checkedIn == wish.desired then
        var answer := Answer(AlreadySatisfied, s.checkedIn, s.version, false);
        Close(Ending(Confirmed, Some(answer), Answered(answer)))
      else Write(s.version)
  }

  const REJECTED := Ending(Failed, None, UpstreamError)

  function Verified(s: Sighting): Ending {
    var answer := Answer(ConfirmedNow, s.checkedIn, s.version, false);
    Ending(Confirmed, Some(answer), Answered(answer))
  }

  function Ambiguous(wish: Wish, version: int): Ending {
    var answer := Answer(Unverified, wish.desired, version, true);
    Ending(PendingVerification, Some(answer), Answered(answer))
  }

  predicate Shows(seen: Option<Sighting>, desired: bool) { seen.Some? && seen.value.checkedIn == desired }

  /** What is stored under the key in the end: the ending if the update got through, else the reservation. */
  function Kept(wish: Wish, applied: bool, status: KeyStatus, response: Option<Answer>): Row {
    if applied then Row(wish, status, response) else Row(wish, Reserved, None)
  }

  /** The attempt refreshed, where that is called for, and then saw the student as desired. */
  predicate Verifies(wish: Wish, snapshotMode: bool, refreshed: bool, seen: Option<Sighting>) {
    (snapshotMode ==> refreshed) && seen != None && seen.value.checkedIn == wish.desired
  }

  /** The whole course of a request that owns its key, from what it saw: reply, upstream calls and stored row. */
  ghost predicate Concludes(wish: Wish, snapshotMode: bool, looks: seq<Option<Sighting>>, refreshes: seq<bool>,
                            accepted: bool, applied: bool, reply: Reply, writes: int, row: Row)
    requires |looks| == 3 && |refreshes| == 2
  {
    match looks[0]
    case None => reply == StudentError && writes == 0 && row == Kept(wish, applied, Failed, None)
    case Some(s) =>
      if s.checkedIn == wish.desired then
        var answer := Answer(AlreadySatisfied, wish.desired, s.version, false);
        reply == Answered(answer) && writes == 0 && row == Kept(wish, applied, Confirmed, Some(answer))
      else if snapshotMode && wish.expected != None && wish.expected != Some(s.version) then
        reply == Conflict && writes == 0 && row == Row(wish, Reserved, None)
      else if !accepted then
        reply == UpstreamError && writes == 1 && row == Kept(wish, applied, Failed, None)
      else if Verifies(wish, snapshotMode, refreshes[0], looks[1]) then
        var answer := Answer(ConfirmedNow, wish.desired, looks[1].value.version, false);
        reply == Answered(answer) && writes == 1 && row == Kept(wish, applied, Confirmed, Some(answer))
      else if Verifies(wish, snapshotMode, refreshes[1], looks[2]) then
        var answer := Answer(ConfirmedNow, wish.desired, looks[2].value.version, false);
        reply == Answered(answer) && writes == 1 && row == Kept(wish, applied, Confirmed, Some(answer))
      else
        var answer := Answer(Unverified, wish.desired, s.version, true);
        reply == Answered(answer) && writes == 1 && row == Kept(wish, applied, PendingVerification, Some(answer))
  }

  /** What a request is told that finds its key taken: never more than what is stored, and nothing of another wish. */
  predicate ToldOf(row: Row, wish: Wish, reply: Reply) {
    && (row.wish != wish <==> reply == Conflict)
    && (row.wish == wish && row.status == Failed <==> reply == UpstreamError)
    && (row.wish == wish && row.status != Failed ==>
          reply == Answered(if row.response == None then Answer(Unverified, false, 0, true) else row.response.value))
  }

  // ---- One request in place ----

  class KeyTable {
    var keys: map<string, Row>

    constructor ()
      ensures keys == map[]
    {
      keys := map[];
    }

    method Reserve(key: string, wish: Wish) returns (found: Option<Row>)
      modifies this
      ensures found == (if key in old(keys) then Some(old(keys)[key]) else None)
      ensures keys == if key in old(keys) then old(keys) else old(keys)[key := Row(wish, Reserved, None)]
    {
      if key in keys { return Some(keys[key]); }
      keys := keys[key := Row(wish, Reserved, None)];
      return None;
    }

    method Settle(key: string, e: Ending, applied: bool)
      modifies this
      ensures keys == if applied && key in old(keys) then old(keys)[key := Settled(old(keys)[key], e)] else old(keys)
    {
      if applied && key in keys && keys[key].status.Reserved? {
        keys := keys[key := Row(keys[key].wish, e.status, e.response)];
      }
    }

    /** Checkin: `looks` are the roster reads it may make, `refreshes` the two refresh attempts, `accepted` the
        upstream answer and `applied` whether the final key update reaches the table. */
    method Checkin(key: string, wish: Wish, snapshotMode: bool, looks: seq<Option<Sighting>>, refreshes: seq<bool>,
                   accepted: bool, applied: bool)
      returns (reply: Reply, writes: nat)
      requires |looks| == 3 && |refreshes| == 2
      modifies this
      ensures key in old(keys) ==> keys == old(keys) && writes == 0 && ToldOf(old(keys)[key], wish, reply)
      ensures key !in old(keys) ==>
                && key in keys && keys == old(keys)[key := keys[key]] && keys[key].wish == wish
                && Concludes(wish, snapshotMode, looks, refreshes, accepted, applied, reply, writes, keys[key])
                && writes == (if PlanAfter(wish, looks[0], snapshotMode).Write? then 1 else 0)
                && (keys[key].status.Confirmed? ==> exists i :: 0 <= i < 3 && Shows(looks[i], wish.desired))
                && (reply.Answered? && !reply.answer.verdict.Unverified? ==>
                      reply.answer.checkedIn == wish.desired && exists i :: 0 <= i < 3 && Shows(looks[i], wish.desired))
                && (applied && reply.Answered? ==> keys[key].response == Some(reply.answer))
                && (!applied ==> keys[key] == Row(wish, Reserved, None))
    {
      writes := 0;
      var found := Reserve(key, wish);
      if found.Some? {
        if found.value.wish != wish { return Conflict, 0; }
        return StoredReply(found.value), 0;
      }
      var plan := PlanAfter(wish, looks[0], snapshotMode);
      if plan.Abandon? { return plan.reply, 0; }
      if plan.Close? {
        assert plan.ending.status.Confirmed? ==> Shows(looks[0], wish.desired);
        Settle(key, plan.ending, applied);
        return plan.ending.reply, 0;
      }
      writes := 1;
      if !accepted {
        Settle(key, REJECTED, applied);
        return REJECTED.reply, 1;
      }
      for attempt := 0 to 2
        invariant writes == 1 && keys == old(keys)[key := Row(wish, Reserved, None)]
        invariant forall i :: 0 <= i < attempt ==> !Verifies(wish, snapshotMode, refreshes[i], looks[i + 1])
      {
        if snapshotMode && !refreshes[attempt] { continue; }
        var seen := looks[attempt + 1];
        if Shows(seen, wish.desired) {
          Settle(key, Verified(seen.value), applied);
          return Verified(seen.value).reply, 1;
        }
      }
      var ending := Ambiguous(wish, plan.version);
      Settle(key, ending, applied);
      return ending.reply, 1;
    }
  }

  // ---- Any number of requests ----

  /** `Rereading` is a request whose insert reported an error, whether or not the row went in. */
  datatype Phase =
    | Starting | Rereading | Owning | Writing(version: int) | Verifying(version: int, attempt: nat)
    | Closing(ending: Ending) | Finished(reply: Reply)

  datatype Request = Request(key: string, wish: Wish, owner: bool, phase: Phase)

  datatype Written = Written(writer: int, key: string, wish: Wish)

  datatype Seen = Seen(key: string, checkedIn: bool)

  /** The key rows, the requests, every call of the upstream writer and every successful roster read. */
  datatype Desk = Desk(keys: map<string, Row>, requests: map<int, Request>, writes: seq<Written>, sights: seq<Seen>)

  datatype Step =
    | Arrive(id: int, key: string, wish: Wish)
    | Insert(id: int, executed: bool, acknowledged: bool)
    | Reread(id: int, readable: bool)
    | Look(id: int, seen: Option<Sighting>, snapshotMode: bool)
    | Toggle(id: int, accepted: bool)
    | Verify(id: int, refreshed: bool, seen: Option<Sighting>)
    | Finish(id: int, applied: bool)

  function Moved(d: Desk, id: int, phase: Phase): Desk
    requires id in d.requests
  {
    d.(requests := d.requests[id := d.requests[id].(phase := phase)])
  }

  function Sighted(d: Desk, key: string, seen: Option<Sighting>): Desk {
    if seen.None? then d else d.(sights := d.sights + [Seen(key, seen.value.checkedIn)])
  }

  function Next(d: Desk, step: Step): Desk {
    if step.Arrive? then
      if step.id in d.requests then d
      else d.(requests := d.requests[step.id := Request(step.key, step.wish, false, Starting)])
    else if step.id !in d.requests then d
    else
      var r := d.requests[step.id];
      match step
      case Insert(id, executed, acknowledged) =>
        if !r.phase.Starting? then d
        else if !executed || r.key in d.keys then Moved(d, id, Rereading)
        else
          d.(keys := d.keys[r.key := Row(r.wish, Reserved, None)],
             requests := d.requests[id :=
               Request(r.key, r.wish, acknowledged, if acknowledged then Owning else Rereading)])
      case Reread(id, readable) =>
        if !r.phase.Rereading? then d
        else
          var found := readable && r.key in d.keys;
          Moved(d, id, Finished(if found then FoundReply(d.keys[r.key], r.wish) else StoreError))
      case Look(id, seen, snapshotMode) =>
        if !r.phase.Owning? then d
        else Moved(Sighted(d, r.key, seen), id, AfterLook(PlanAfter(r.wish, seen, snapshotMode)))
      case Toggle(id, accepted) =>
        if !r.phase.Writing? then d
        else Moved(d.(writes := d.writes + [Written(id, r.key, r.wish)]), id,
                   if accepted then Verifying(r.phase.version, 0) else Closing(REJECTED))
      case Verify(id, refreshed, seen) =>
        if !r.phase.Verifying? then d
        else if refreshed && Shows(seen, r.wish.desired) then
          Moved(Sighted(d, r.key, seen), id, Closing(Verified(seen.value)))
        else
          Moved(if refreshed then Sighted(d, r.key, seen) else d, id,
                if r.phase.attempt < 1 then Verifying(r.phase.version, r.phase.attempt + 1)
                else Closing(Ambiguous(r.wish, r.phase.version)))
      case Finish(id, applied) =>
        if !r.phase.Closing? then d
        else if applied && r.key in d.keys then
          Moved(d.(keys := d.keys[r.key := Settled(d.keys[r.key], r.phase.ending)]), id, Finished(r.phase.ending.reply))
        else Moved(d, id, Finished(r.phase.ending.reply))
  }

  function AfterLook(plan: Plan): Phase {
    match plan
    case Write(version) => Writing(version)
    case Close(ending) => Closing(ending)
    case Abandon(reply) => Finished(reply)
  }

  function After(steps: seq<Step>): Desk {
    if steps == [] then Desk(map[], map[], [], []) else Next(After(steps[..|steps| - 1]), steps[|steps| - 1])
  }

  // ---- Invariants ----

  ghost predicate WasSeen(sights: seq<Seen>, key: string, checkedIn: bool) {
    exists i :: 0 <= i < |sights| && sights[i] == Seen(key, checkedIn)
  }

  ghost predicate RequestSound(d: Desk, r: Request) {
    && (r.owner ==> r.key in d.keys && d.keys[r.key].wish == r.wish)
    && (!r.owner ==> r.phase.Starting? || r.phase.Rereading? || r.phase.Finished?)
    && (r.phase.Closing? && r.phase.ending.status.Confirmed? ==> WasSeen(d.sights, r.key, r.wish.desired))
  }

  ghost predicate RequestsSound(d: Desk) {
    forall id :: id in d.requests ==> RequestSound(d, d.requests[id])
  }

  ghost predicate OneOwner(d: Desk) {
    forall i, j :: i in d.requests && j in d.requests && i != j && d.requests[i].owner && d.requests[j].owner ==>
      d.requests[i].key != d.requests[j].key
  }

  /** A write was made by the owner of its key, which has gone on since. */
  ghost predicate WriteSound(d: Desk, w: Written) {
    && w.writer in d.requests && d.requests[w.writer].owner
    && d.requests[w.writer].key == w.key && d.requests[w.writer].wish == w.wish
    && !d.requests[w.writer].phase.Owning? && !d.requests[w.writer].phase.Writing?
  }

  ghost predicate WritesSound(d: Desk) {
    && (forall i :: 0 <= i < |d.writes| ==> WriteSound(d, d.writes[i]))
    && (forall i, j :: 0 <= i < j < |d.writes| ==> d.writes[i].writer != d.writes[j].writer)
  }

  ghost predicate RowsSound(d: Desk) {
    forall key :: key in d.keys && d.keys[key].status.Confirmed? ==> WasSeen(d.sights, key, d.keys[key].wish.desired)
  }

  ghost predicate Sound(d: Desk) { RequestsSound(d) && OneOwner(d) && WritesSound(d) && RowsSound(d) }

  /** Reads are only added to the log. */
  lemma SightsKept(d: Desk, step: Step, key: string, checkedIn: bool)
    requires WasSeen(d.sights, key, checkedIn)
    ensures WasSeen(Next(d, step).sights, key, checkedIn)
  {
    var i :| 0 <= i < |d.sights| && d.sights[i] == Seen(key, checkedIn);
    assert Next(d, step).sights[i] == d.sights[i];
  }

  lemma StepKeepsOwner(d: Desk, step: Step)
    requires Sound(d)
    ensures OneOwner(Next(d, step))
  {
    forall id | id in d.requests && d.requests[id].owner ensures d.requests[id].key in d.keys {
      assert RequestSound(d, d.requests[id]);
    }
  }

  lemma StepKeepsRequest(d: Desk, step: Step, id: int)
    requires RequestsSound(d) && id in Next(d, step).requests
    ensures RequestSound(Next(d, step), Next(d, step).requests[id])
  {
    var d' := Next(d, step);
    var r := d'.requests[id];
    if id in d.requests { assert RequestSound(d, d.requests[id]); }
    if r.phase.Closing? && r.phase.ending.status.Confirmed? {
      if d.requests[id] == r {
        SightsKept(d, step, r.key, r.wish.desired);
      } else {
        assert d'.sights[|d.sights|] == Seen(r.key, r.wish.desired);
      }
    }
  }

  lemma StepKeepsRequests(d: Desk, step: Step)
    requires RequestsSound(d)
    ensures RequestsSound(Next(d, step))
  {
    forall id | id in Next(d, step).requests ensures RequestSound(Next(d, step), Next(d, step).requests[id]) {
      StepKeepsRequest(d, step, id);
    }
  }

  lemma StepKeepsWrites(d: Desk, step: Step)
    requires Sound(d)
    ensures WritesSound(Next(d, step))
  {
    var d' := Next(d, step);
    forall i | 0 <= i < |d'.writes| ensures WriteSound(d', d'.writes[i]) {
      if i < |d.writes| { assert d'.writes[i] == d.writes[i] && WriteSound(d, d.writes[i]); }
      else { assert RequestSound(d, d.requests[step.id]); }
    }
    forall i, j | 0 <= i < j < |d'.writes| ensures d'.writes[i].writer != d'.writes[j].writer {
      assert d'.writes[i] == d.writes[i] && WriteSound(d, d.writes[i]);
    }
  }

  lemma StepKeepsRows(d: Desk, step: Step)
    requires Sound(d)
    ensures RowsSound(Next(d, step))
  {
    var d' := Next(d, step);
    forall key | key in d'.keys && d'.keys[key].status.Confirmed?
      ensures WasSeen(d'.sights, key, d'.keys[key].wish.desired)
    {
      if key in d.keys && d.keys[key].status.Confirmed? {
        SightsKept(d, step, key, d.keys[key].wish.desired);
      } else {
        assert RequestSound(d, d.requests[step.id]);
      }
    }
  }

  lemma {:induction false} RunsSound(steps: seq<Step>)
    ensures Sound(After(steps))
  {
    if steps != [] {
      var d, step := After(steps[..|steps| - 1]), steps[|steps| - 1];
      RunsSound(steps[..|steps| - 1]);
      StepKeepsOwner(d, step);
      StepKeepsRequests(d, step);
      StepKeepsWrites(d, step);
      StepKeepsRows(d, step);
    }
  }

  /** Over all requests and retries the upstream writer is invoked at most once per key. */
  lemma {:induction false} AtMostOnceUpstream(steps: seq<Step>, i: nat, j: nat)
    requires i < j < |After(steps).writes|
    ensures After(steps).writes[i].key != After(steps).writes[j].key
  {
    RunsSound(steps);
    var d := After(steps);
    assert WriteSound(d, d.writes[i]) && WriteSound(d, d.writes[j]);
  }

  /** Every invocation carries the parameters its key was reserved with, and was made by the owner of the key. */
  lemma {:induction false} WritesAsReserved(steps: seq<Step>, i: nat)
    requires i < |After(steps).writes|
    ensures var d := After(steps);
            var w := d.writes[i];
            && w.key in d.keys && d.keys[w.key].wish == w.wish
            && w.writer in d.requests && d.requests[w.writer].owner && d.requests[w.writer].key == w.key
  {
    RunsSound(steps);
    var d := After(steps);
    assert WriteSound(d, d.writes[i]);
    assert RequestSound(d, d.requests[d.writes[i].writer]);
  }

  /** A key stored as confirmed was confirmed by a roster read that showed the desired state. */
  lemma {:induction false} ConfirmedWasSeen(steps: seq<Step>, key: string)
    requires key in After(steps).keys && After(steps).keys[key].status.Confirmed?
    ensures WasSeen(After(steps).sights, key, After(steps).keys[key].wish.desired)
  {
    RunsSound(steps);
  }

  /** Reuse of a key with other parameters never writes: a request whose parameters differ from the key's
      is not its owner, so it never reaches the writer. */
  lemma {:induction false} MismatchNeverWrites(steps: seq<Step>, id: int)
    requires id in After(steps).requests
    requires var r := After(steps).requests[id]; r.key in After(steps).keys && After(steps).keys[r.key].wish != r.wish
    ensures forall i :: 0 <= i < |After(steps).writes| ==> After(steps).writes[i].writer != id
  {
    RunsSound(steps);
    var d := After(steps);
    forall i | 0 <= i < |d.writes| ensures d.writes[i].writer != id {
      assert WriteSound(d, d.writes[i]) && RequestSound(d, d.requests[id]);
    }
  }

  /** A key keeps its parameters, and leaves 'reserved' at most once: from then on its row never changes. */
  lemma {:induction false} SettledForever(steps: seq<Step>, more: seq<Step>, key: string)
    requires key in After(steps).keys
    ensures key in After(steps + more).keys
    ensures After(steps + more).keys[key].wish == After(steps).keys[key].wish
    ensures !After(steps).keys[key].status.Reserved? ==> After(steps + more).keys[key] == After(steps).keys[key]
    decreases |more|
  {
    if more == [] {
      assert steps + more == steps;
    } else {
      var earlier := more[..|more| - 1];
      SettledForever(steps, earlier, key);
      assert (steps + more)[..|steps + more| - 1] == steps + earlier;
      assert (steps + more)[|steps + more| - 1] == more[|more| - 1];
    }
  }

  // ---- The machine and the method agree ----

  /** Since `d0` the desk has seen this one request: where it stands, its row and its upstream calls. */
  ghost predicate Stands(d0: Desk, d: Desk, id: int, r: Request, row: Row, writes: int) {
    && id in d.requests && d.requests[id] == r && r.owner
    && d.keys == d0.keys[r.key := row] && |d.writes| == |d0.writes| + writes
  }

  lemma LookStands(d0: Desk, d: Desk, id: int, r: Request, row: Row, writes: int, seen: Option<Sighting>, mode: bool)
    requires Stands(d0, d, id, r, row, writes)
    ensures Stands(d0, Next(d, Look(id, seen, mode)), id,
                   if r.phase.Owning? then r.(phase := AfterLook(PlanAfter(r.wish, seen, mode))) else r, row, writes)
  {
  }

  lemma ToggleStands(d0: Desk, d: Desk, id: int, r: Request, row: Row, writes: int, accepted: bool)
    requires Stands(d0, d, id, r, row, writes)
    ensures if r.phase.Writing? then
              Stands(d0, Next(d, Toggle(id, accepted)), id,
                     r.(phase := if accepted then Verifying(r.phase.version, 0) else Closing(REJECTED)),
                     row, writes + 1)
            else Stands(d0, Next(d, Toggle(id, accepted)), id, r, row, writes)
  {
  }

  /** What a verification makes of the phase; of one that is not verifying, nothing. */
  function AfterVerify(p: Phase, wish: Wish, refreshed: bool, seen: Option<Sighting>): Phase {
    if !p.Verifying? then p
    else if refreshed && Shows(seen, wish.desired) then Closing(Verified(seen.value))
    else if p.attempt == 0 then Verifying(p.version, 1)
    else Closing(Ambiguous(wish, p.version))
  }

  lemma VerifyStands(d0: Desk, d: Desk, id: int, r: Request, row: Row, writes: int, refreshed: bool,
                     seen: Option<Sighting>)
    requires Stands(d0, d, id, r, row, writes)
    ensures Stands(d0, Next(d, Verify(id, refreshed, seen)), id,
                   r.(phase := AfterVerify(r.phase, r.wish, refreshed, seen)), row, writes)
  {
  }

  lemma FinishStands(d0: Desk, d: Desk, id: int, r: Request, row: Row, writes: int, applied: bool)
    requires Stands(d0, d, id, r, row, writes) && r.phase.Closing? && row == Row(r.wish, Reserved, None)
    ensures var e := r.phase.ending;
            Stands(d0, Next(d, Finish(id, applied)), id, r.(phase := Finished(e.reply)),
                   Kept(r.wish, applied, e.status, e.response), writes)
  {
  }

  lemma FinishedStands(d0: Desk, d: Desk, id: int, r: Request, row: Row, writes: int, applied: bool)
    requires Stands(d0, d, id, r, row, writes) && !r.phase.Closing?
    ensures Stands(d0, Next(d, Finish(id, applied)), id, r, row, writes)
  {
  }

  /** A request that meets nobody else. The steps its phase does not call for do nothing. */
  function Alone(d: Desk, id: int, key: string, wish: Wish, snapshotMode: bool, looks: seq<Option<Sighting>>,
                 refreshes: seq<bool>, accepted: bool): Desk
    requires |looks| == 3 && |refreshes| == 2
  {
    var owning := Next(Next(d, Arrive(id, key, wish)), Insert(id, true, true));
    var written := Next(Next(owning, Look(id, looks[0], snapshotMode)), Toggle(id, accepted));
    Next(Next(written, Verify(id, !snapshotMode || refreshes[0], looks[1])),
         Verify(id, !snapshotMode || refreshes[1], looks[2]))
  }

  /** Up to the last step: the phase it reaches and the calls it made. */
  lemma AloneStands(d: Desk, id: int, key: string, wish: Wish, snapshotMode: bool, looks: seq<Option<Sighting>>,
                    refreshes: seq<bool>, accepted: bool)
    returns (phase: Phase, writes: int)
    requires id !in d.requests && key !in d.keys && |looks| == 3 && |refreshes| == 2
    ensures var plan := PlanAfter(wish, looks[0], snapshotMode);
            var after := if !accepted then Closing(REJECTED)
                         else AfterVerify(AfterVerify(Verifying(if plan.Write? then plan.version else 0, 0), wish,
                                                      !snapshotMode || refreshes[0], looks[1]),
                                          wish, !snapshotMode || refreshes[1], looks[2]);
            && phase == (if plan.Write? then after else AfterLook(plan)) && writes == (if plan.Write? then 1 else 0)
            && Stands(d, Alone(d, id, key, wish, snapshotMode, looks, refreshes, accepted), id,
                      Request(key, wish, true, phase), Row(wish, Reserved, None), writes)
  {
    var row, r := Row(wish, Reserved, None), Request(key, wish, true, Owning);
    var owning := Next(Next(d, Arrive(id, key, wish)), Insert(id, true, true));
    assert Stands(d, owning, id, r, row, 0);
    var plan := PlanAfter(wish, looks[0], snapshotMode);
    LookStands(d, owning, id, r, row, 0, looks[0], snapshotMode);
    var looked, q := Next(owning, Look(id, looks[0], snapshotMode)), r.(phase := AfterLook(plan));
    ToggleStands(d, looked, id, q, row, 0, accepted);
    writes := if plan.Write? then 1 else 0;
    var written := Next(looked, Toggle(id, accepted));
    var w := if !plan.Write? then q
             else q.(phase := if accepted then Verifying(plan.version, 0) else Closing(REJECTED));
    VerifyStands(d, written, id, w, row, writes, !snapshotMode || refreshes[0], looks[1]);
    var v := w.(phase := AfterVerify(w.phase, wish, !snapshotMode || refreshes[0], looks[1]));
    VerifyStands(d, Next(written, Verify(id, !snapshotMode || refreshes[0], looks[1])), id, v, row, writes,
                 !snapshotMode || refreshes[1], looks[2]);
    phase := AfterVerify(v.phase, wish, !snapshotMode || refreshes[1], looks[2]);
  }

  /** A request with a key of its own, from arrival to reply: the machine ends where the method does. */
  lemma AloneConcludes(d: Desk, id: int, key: string, wish: Wish, snapshotMode: bool, looks: seq<Option<Sighting>>,
                       refreshes: seq<bool>, accepted: bool, applied: bool)
    requires id !in d.requests && key !in d.keys && |looks| == 3 && |refreshes| == 2
    ensures var d' := Next(Alone(d, id, key, wish, snapshotMode, looks, refreshes, accepted), Finish(id, applied));
            && id in d'.requests && d'.requests[id].phase.Finished? && key in d'.keys
            && d'.keys == d.keys[key := d'.keys[key]]
            && Concludes(wish, snapshotMode, looks, refreshes, accepted, applied, d'.requests[id].phase.reply,
                         |d'.writes| - |d.writes|, d'.keys[key])
  {
    var phase, writes := AloneStands(d, id, key, wish, snapshotMode, looks, refreshes, accepted);
    var r, row := Request(key, wish, true, phase), Row(wish, Reserved, None);
    var last := Alone(d, id, key, wish, snapshotMode, looks, refreshes, accepted);
    if phase.Closing? {
      FinishStands(d, last, id, r, row, writes, applied);
    } else {
      FinishedStands(d, last, id, r, row, writes, applied);
    }
  }

  /** A starting request reserves its key if its insert is executed and the key is free, and owns it only if it also
      hears so; in any other case it goes on to read the key. */
  lemma InsertMeans(d: Desk, id: int, executed: bool, acknowledged: bool)
    requires id in d.requests && d.requests[id].phase.Starting?
    ensures var r, d' := d.requests[id], Next(d, Insert(id, executed, acknowledged));
            var reserved := executed && r.key !in d.keys;
            && d'.keys == (if reserved then d.keys[r.key := Row(r.wish, Reserved, None)] else d.keys)
            && id in d'.requests && d'.writes == d.writes
            && (if reserved && acknowledged then d'.requests[id] == Request(r.key, r.wish, true, Owning)
                else d'.requests[id] == r.(owner := r.owner && !reserved, phase := Rereading))
  {
  }

  /** A request that finds its key taken, or cannot read it, writes nothing and is told of the stored row. */
  lemma LateRequestsAreTold(d: Desk, id: int, readable: bool)
    requires id in d.requests && d.requests[id].phase.Rereading?
    ensures var r, d' := d.requests[id], Next(d, Reread(id, readable));
            && d'.keys == d.keys && d'.writes == d.writes && id in d'.requests && d'.requests[id].phase.Finished?
            && (if readable && r.key in d.keys then ToldOf(d.keys[r.key], r.wish, d'.requests[id].phase.reply)
                else d'.requests[id].phase.reply == StoreError)
  {
  }
}
