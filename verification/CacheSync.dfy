/**
  Many nodes update one Cache through the API server: each call reads the object,
  modifies its copy and writes it back if nobody else did, and starts over on a
  conflict (internal/ksync/sync.go, `updateCache`).

  The steps of all calls interleave freely.  Besides, requests may fail, replies to
  a write that took effect may get lost, time passes, and somebody else may edit or
  delete the object.  A log records what took effect, in the order in which it did.
 */
module CacheSync {
  import opened Wrappers
  import opened CacheStatus

  datatype Op =
    | Register(node: string, volume: string, image: string, commit: bool)
    | PrepareCommit(node: string, volume: string)
    | Unregister(node: string, volume: string, failure: Option<string>)

  /** What a modify function captures for its caller. */
  datatype Answer = Image(image: string) | Commit(commit: bool) | Nothing

  /** A modify function, given the operation and the time at which it runs. */
  type Modify = (Op, Cache, int) -> (Cache, Answer)

  /** The modify functions as written. */
  function Written(op: Op, c: Cache, now: int): (Cache, Answer) {
    match op
    case Register(node, volume, image, commit) =>
      var (c', chosen) := RegisterIn(c, node, volume, image, commit, now);
      (c', Image(chosen))
    case PrepareCommit(node, volume) =>
      var (c', commit) := PrepareCommitIn(c, node, volume, now);
      (c', Commit(commit))
    case Unregister(node, volume, failure) =>
      (UnregisterIn(c, node, volume, failure, now), Nothing)
  }

  datatype Error = NotFound | Conflict | Failed

  /** Where a call stands; `version` is the resource version its copy was read at. */
  datatype Stage =
    | Reading
    | Creating
    | Reloading
    | Holding(version: nat, copy: Cache)
    | Writing(version: nat, base: Cache, copy: Cache, at: int)
    | Returned(error: Option<Error>, lost: bool)

  /**
    `answer` is the variable captured by the modify function; every attempt overwrites it.
    `since` remembers how many events had taken effect when the call began.
   */
  datatype Call = Call(op: Op, since: nat, attempts: nat, answer: Answer, stage: Stage)

  datatype Event =
    | Created
    | Deleted
    | Edited(readOnly: bool, rejected: bool)
    | Applied(id: nat, op: Op, at: int)

  datatype World = World(
    stored: Option<Cache>, version: nat, calls: map<nat, Call>, now: int, log: seq<Event>)

  const MAX_ATTEMPTS := 10

  datatype Step =
    | Begin(id: nat, op: Op)
    | Get(id: nat)
    | Create(id: nat)
    | Reload(id: nat)
    | Change(id: nat)
    | Update(id: nat)
    | LoseReply(id: nat)
    | Fail(id: nat)
    | Tick(seconds: nat)
    | Edit(readOnly: bool, rejected: bool)
    | Delete

  // ---------------------------------------------------------------- steps

  function Put(w: World, id: nat, call: Call): World {
    w.(calls := w.calls[id := call])
  }

  /** A change of the stored object by anyone. */
  function Store(w: World, stored: Option<Cache>, e: Event): World {
    w.(stored := stored, version := w.version + 1, log := w.log + [e])
  }

  function Answered(call: Call, error: Option<Error>): Call {
    call.(stage := Returned(error, false))
  }

  /** A write that was refused because of its version: try again, at most ten times. */
  function Refused(call: Call): Call {
    if call.attempts + 1 < MAX_ATTEMPTS then call.(attempts := call.attempts + 1, stage := Reading)
    else Answered(call, Some(Conflict))
  }

  predicate InStage(w: World, id: nat, stage: Stage -> bool) {
    id in w.calls && stage(w.calls[id].stage)
  }

  /** The world after a step; a step that is not possible changes nothing. */
  function Next(m: Modify, w: World, s: Step): World {
    match s
    case Begin(id, op) =>
      if id in w.calls then w else Put(w, id, Call(op, |w.log|, 0, Nothing, Reading))
    case Get(id) =>
      if !InStage(w, id, (x: Stage) => x.Reading?) then w
      else
        var call := w.calls[id];
        Put(w, id, match w.stored
                   case Some(c) => call.(stage := Holding(w.version, c))
                   case None => if call.op.Register? then call.(stage := Creating)
                                else Answered(call, Some(NotFound)))
    case Create(id) =>
      if !InStage(w, id, (x: Stage) => x.Creating?) then w
      else
        var w' := Put(w, id, w.calls[id].(stage := Reloading));
        if w.stored.None? then Store(w', Some(NEW_CACHE), Created) else w'
    case Reload(id) =>
      if !InStage(w, id, (x: Stage) => x.Reloading?) then w
      else
        var call := w.calls[id];
        Put(w, id, match w.stored
                   case Some(c) => call.(stage := Holding(w.version, c))
                   case None => Answered(call, Some(NotFound)))
    case Change(id) =>
      if !InStage(w, id, (x: Stage) => x.Holding?) then w
      else
        var call := w.calls[id];
        var (copy, answer) := m(call.op, call.stage.copy, w.now);
        Put(w, id, call.(answer := answer,
                         stage := Writing(call.stage.version, call.stage.copy, copy, w.now)))
    case Update(id) =>
      if !InStage(w, id, (x: Stage) => x.Writing?) then w
      else
        var call := w.calls[id];
        if w.stored.None? then Put(w, id, Answered(call, Some(NotFound)))
        else if call.stage.version != w.version then Put(w, id, Refused(call))
        else Store(Put(w, id, Answered(call, None)), Some(call.stage.copy),
                   Applied(id, call.op, call.stage.at))
    case LoseReply(id) =>
      if !InStage(w, id, (x: Stage) => x.Writing?) || w.stored.None?
         || w.calls[id].stage.version != w.version then w
      else
        var call := w.calls[id];
        Store(Put(w, id, call.(stage := Returned(Some(Failed), true))), Some(call.stage.copy),
              Applied(id, call.op, call.stage.at))
    case Fail(id) =>
      if id !in w.calls || w.calls[id].stage.Returned? then w
      else Put(w, id, Answered(w.calls[id], Some(Failed)))
    case Tick(seconds) => w.(now := w.now + seconds)
    case Edit(readOnly, rejected) =>
      if w.stored.None? then w
      else Store(w, Some(w.stored.value.(readOnly := readOnly, rejected := rejected)), Edited(readOnly, rejected))
    case Delete =>
      if w.stored.None? then w else Store(w, None, Deleted)
  }

  const START := World(None, 0, map[], 0, [])

  function Run(m: Modify, steps: seq<Step>): World {
    if steps == [] then START else Next(m, Run(m, steps[..|steps| - 1]), steps[|steps| - 1])
  }

  // ---------------------------------------------------------------- the sequential reading

  function Effect(m: Modify, stored: Option<Cache>, e: Event): Option<Cache> {
    match e
    case Created => Some(NEW_CACHE)
    case Deleted => None
    case Edited(readOnly, rejected) =>
      if stored.Some? then Some(stored.value.(readOnly := readOnly, rejected := rejected)) else None
    case Applied(_, op, at) =>
      if stored.Some? then Some(m(op, stored.value, at).0) else None
  }

  /** The object after the logged events took effect one after the other. */
  function Replay(m: Modify, log: seq<Event>): Option<Cache> {
    if log == [] then None else Effect(m, Replay(m, log[..|log| - 1]), log[|log| - 1])
  }

  /** How often a call took effect. */
  function Count(log: seq<Event>, id: nat): nat {
    if log == [] then 0
    else Count(log[..|log| - 1], id)
         + (if log[|log| - 1].Applied? && log[|log| - 1].id == id then 1 else 0)
  }

  /** The k-th event is this call's, after the call began, and its answer is what the caller got. */
  ghost predicate AppliedAt(m: Modify, log: seq<Event>, id: nat, call: Call, k: nat) {
    call.since <= k < |log| && log[k].Applied? && log[k].id == id && log[k].op == call.op
    && Replay(m, log[..k]).Some?
    && call.answer == m(call.op, Replay(m, log[..k]).value, log[k].at).1
  }

  ghost predicate TookEffect(m: Modify, log: seq<Event>, id: nat, call: Call) {
    Count(log, id) == 1 && exists k: nat :: AppliedAt(m, log, id, call, k)
  }

  // ---------------------------------------------------------------- the invariant

  /** No event is later than `now`, and events are in the order of their times. */
  ghost predicate InOrder(log: seq<Event>, now: int) {
    (forall k | 0 <= k < |log| && log[k].Applied? :: log[k].at <= now)
    && forall j, k | 0 <= j < k < |log| && log[j].Applied? && log[k].Applied? :: log[j].at <= log[k].at
  }

  ghost predicate Fine(m: Modify, w: World, id: nat, call: Call) {
    call.since <= |w.log| &&
    match call.stage
    case Reading => Count(w.log, id) == 0
    case Creating => Count(w.log, id) == 0
    case Reloading => Count(w.log, id) == 0
    case Holding(version, copy) =>
      Count(w.log, id) == 0 && version <= w.version && (version == w.version ==> w.stored == Some(copy))
    case Writing(version, base, copy, at) =>
      Count(w.log, id) == 0 && version <= w.version && at <= w.now
      && (version == w.version ==> w.stored == Some(base) && InOrder(w.log, at))
      && m(call.op, base, at) == (copy, call.answer)
    case Returned(error, lost) =>
      if error.None? || lost then TookEffect(m, w.log, id, call) else Count(w.log, id) == 0
  }

  ghost predicate Inv(m: Modify, w: World) {
    w.stored == Replay(m, w.log)
    && InOrder(w.log, w.now)
    && (forall id | id in w.calls :: Fine(m, w, id, w.calls[id]))
    && (forall id: nat | id !in w.calls :: Count(w.log, id) == 0)
  }

  // ---------------------------------------------------------------- proofs

  lemma Appended(m: Modify, log: seq<Event>, e: Event)
    ensures Replay(m, log + [e]) == Effect(m, Replay(m, log), e)
    ensures forall id :: Count(log + [e], id) == Count(log, id) + (if e.Applied? && e.id == id then 1 else 0)
  {
  }

  lemma StillApplied(m: Modify, log: seq<Event>, e: Event, id: nat, call: Call)
    requires TookEffect(m, log, id, call) && !(e.Applied? && e.id == id)
    ensures TookEffect(m, log + [e], id, call)
  {
    Appended(m, log, e);
    var k: nat :| AppliedAt(m, log, id, call, k);
    assert (log + [e])[..k] == log[..k];
    assert AppliedAt(m, log + [e], id, call, k);
  }

  lemma JustApplied(m: Modify, log: seq<Event>, id: nat, call: Call, at: int)
    requires Count(log, id) == 0 && Replay(m, log).Some? && call.since <= |log|
    requires call.answer == m(call.op, Replay(m, log).value, at).1
    ensures TookEffect(m, log + [Applied(id, call.op, at)], id, call)
  {
    var e := Applied(id, call.op, at);
    Appended(m, log, e);
    assert (log + [e])[..|log|] == log;
    assert AppliedAt(m, log + [e], id, call, |log|);
  }

  lemma StillInOrder(log: seq<Event>, e: Event, now: int)
    requires InOrder(log, now) && (e.Applied? ==> e.at <= now && InOrder(log, e.at))
    ensures InOrder(log + [e], now)
  {
  }

  /** A write by anyone leaves every other call in order; copies read before become outdated. */
  lemma StoreKeeps(m: Modify, w: World, stored: Option<Cache>, e: Event, other: nat)
    requires Inv(m, w) && other in w.calls && !(e.Applied? && e.id == other)
    ensures Fine(m, Store(w, stored, e), other, w.calls[other])
  {
    Appended(m, w.log, e);
    var call := w.calls[other];
    if call.stage.Returned? && (call.stage.error.None? || call.stage.lost) {
      StillApplied(m, w.log, e, other, call);
    }
  }

  /** A call that moves on by itself. */
  lemma PutKeeps(m: Modify, w: World, id: nat, call: Call)
    requires Inv(m, w) && Fine(m, w, id, call)
    ensures Inv(m, Put(w, id, call))
  {
  }

  /** A write by somebody else than the modelled calls, or the creation of the object. */
  lemma StoreInv(m: Modify, w: World, e: Event)
    requires Inv(m, w) && !e.Applied?
    ensures Inv(m, Store(w, Effect(m, w.stored, e), e))
  {
    hide TookEffect;
    Appended(m, w.log, e);
    StillInOrder(w.log, e, w.now);
    var w' := Store(w, Effect(m, w.stored, e), e);
    forall id | id in w.calls ensures Fine(m, w', id, w.calls[id]) {
      StoreKeeps(m, w, w'.stored, e, id);
    }
  }

  /** The write of a call whose copy is current takes effect exactly once. */
  lemma ApplyInv(m: Modify, w: World, id: nat, lost: bool)
    requires Inv(m, w) && id in w.calls && w.calls[id].stage.Writing?
    requires w.stored.Some? && w.calls[id].stage.version == w.version
    ensures var call := w.calls[id];
            var error := if lost then Some(Failed) else None;
            Inv(m, Store(Put(w, id, call.(stage := Returned(error, lost))), Some(call.stage.copy),
                         Applied(id, call.op, call.stage.at)))
  {
    hide InOrder, TookEffect, Count;
    var call := w.calls[id];
    var e := Applied(id, call.op, call.stage.at);
    var error := if lost then Some(Failed) else None;
    var w' := Store(Put(w, id, call.(stage := Returned(error, lost))), Some(call.stage.copy), e);
    assert Fine(m, w, id, call);
    Appended(m, w.log, e);
    JustApplied(m, w.log, id, call.(stage := Returned(error, lost)), call.stage.at);
    StillInOrder(w.log, e, w.now);
    forall other | other in w.calls && other != id ensures Fine(m, w', other, w.calls[other]) {
      StoreKeeps(m, w, w'.stored, e, other);
    }
  }

  lemma NextKeeps(m: Modify, w: World, s: Step)
    requires Inv(m, w)
    ensures Inv(m, Next(m, w, s))
  {
    match s
    case Begin(id, op) =>
      if id !in w.calls {
        PutKeeps(m, w, id, Call(op, |w.log|, 0, Nothing, Reading));
      }
    case Tick(seconds) =>
      forall id | id in w.calls ensures Fine(m, Next(m, w, s), id, w.calls[id]) {
        assert Fine(m, w, id, w.calls[id]);
      }
    case Edit(readOnly, rejected) =>
      if w.stored.Some? {
        StoreInv(m, w, Edited(readOnly, rejected));
      }
    case Delete =>
      if w.stored.Some? {
        StoreInv(m, w, Deleted);
      }
    case _ => CallKeeps(m, w, s);
  }

  /** The steps of a call that has begun. */
  lemma CallKeeps(m: Modify, w: World, s: Step)
    requires Inv(m, w)
    requires s.Get? || s.Create? || s.Reload? || s.Change? || s.Update? || s.LoseReply? || s.Fail?
    ensures Inv(m, Next(m, w, s))
  {
    var id := s.id;
    if id in w.calls {
      var call := w.calls[id];
      assert Fine(m, w, id, call);
      var w' := Next(m, w, s);
      if s.Create? && call.stage.Creating? {
        PutKeeps(m, w, id, call.(stage := Reloading));
        if w.stored.None? {
          StoreInv(m, Put(w, id, call.(stage := Reloading)), Created);
        }
      } else if (s.Update? || s.LoseReply?) && call.stage.Writing? && w.stored.Some?
                && call.stage.version == w.version
      {
        ApplyInv(m, w, id, s.LoseReply?);
      } else if w' != w {
        assert w' == Put(w, id, w'.calls[id]);
        PutKeeps(m, w, id, w'.calls[id]);
      }
    }
  }

  /** Every run of interleaved calls keeps the invariant. */
  lemma {:induction false} RunInv(m: Modify, steps: seq<Step>)
    ensures Inv(m, Run(m, steps))
  {
    if steps != [] {
      RunInv(m, steps[..|steps| - 1]);
      NextKeeps(m, Run(m, steps[..|steps| - 1]), steps[|steps| - 1]);
    }
  }

  // ---------------------------------------------------------------- results

  /**
    Linearisation: in every run, the stored object is what the calls that took effect make of it
    one after the other, in the order of their times.  A call takes effect at most once, and it
    does iff it returned no error or the reply to its write was lost, at one point between its begin
    and its return.  It answers what its modify function captured from the object at that point.
   */
  lemma Linearised(m: Modify, steps: seq<Step>, id: nat)
    ensures var w := Run(m, steps);
            w.stored == Replay(m, w.log) && InOrder(w.log, w.now) && Count(w.log, id) <= 1
    ensures var w := Run(m, steps);
            id in w.calls && w.calls[id].stage.Returned? ==>
              (Count(w.log, id) == 1 <==> w.calls[id].stage.error.None? || w.calls[id].stage.lost)
    ensures var w := Run(m, steps);
            id in w.calls && Count(w.log, id) == 1 ==>
              w.calls[id].stage.Returned? && exists k: nat :: AppliedAt(m, w.log, id, w.calls[id], k)
  {
    RunInv(m, steps);
    var w := Run(m, steps);
    if id in w.calls {
      assert Fine(m, w, id, w.calls[id]);
    }
  }

  // ---------------------------------------------------------------- lock freedom

  /** Every refused attempt was overtaken by an event of its own. */
  ghost predicate Overtaken(w: World, call: Call) {
    call.attempts < MAX_ATTEMPTS && call.since + call.attempts <= |w.log|
    && (call.stage.Holding? ==> call.since + call.attempts <= call.stage.version <= |w.log|)
    && (call.stage.Writing? ==> call.since + call.attempts <= call.stage.version <= |w.log|)
    && (call.stage.Returned? && call.stage.error == Some(Conflict) ==> call.since + MAX_ATTEMPTS <= |w.log|)
  }

  ghost predicate AllOvertaken(w: World) {
    w.version == |w.log| && forall id | id in w.calls :: Overtaken(w, w.calls[id])
  }

  lemma NextOvertakes(m: Modify, w: World, s: Step)
    requires AllOvertaken(w)
    ensures AllOvertaken(Next(m, w, s))
  {
  }

  lemma {:induction false} RunOvertakes(m: Modify, steps: seq<Step>)
    ensures AllOvertaken(Run(m, steps))
  {
    if steps != [] {
      RunOvertakes(m, steps[..|steps| - 1]);
      NextOvertakes(m, Run(m, steps[..|steps| - 1]), steps[|steps| - 1]);
    }
  }

  /**
    Nobody gives up in vain: a call returns a conflict only after ten attempts, each of which lost
    to an update that did take effect; its own never did.
   */
  lemma GivesUpOnlyWhenOvertaken(m: Modify, steps: seq<Step>, id: nat)
    ensures var w := Run(m, steps);
            id in w.calls && w.calls[id].stage.Returned? && w.calls[id].stage.error == Some(Conflict) ==>
              w.calls[id].since + 10 <= |w.log| && Count(w.log, id) == 0
  {
    RunOvertakes(m, steps);
    RunInv(m, steps);
    var w := Run(m, steps);
    if id in w.calls {
      assert Fine(m, w, id, w.calls[id]) && Overtaken(w, w.calls[id]) && NotLost(w.calls[id]) by {
        RunNotLost(m, steps, id);
      }
    }
  }

  /** A lost reply shows as a failure, not as a conflict. */
  predicate NotLost(call: Call) {
    call.stage.Returned? && call.stage.lost ==> call.stage.error == Some(Failed)
  }

  lemma {:induction false} RunNotLost(m: Modify, steps: seq<Step>, id: nat)
    ensures id in Run(m, steps).calls ==> NotLost(Run(m, steps).calls[id])
  {
    if steps != [] {
      RunNotLost(m, steps[..|steps| - 1], id);
    }
  }

  // ---------------------------------------------------------------- undisturbed calls

  lemma OneMore(m: Modify, steps: seq<Step>, s: Step)
    ensures Run(m, steps + [s]) == Next(m, Run(m, steps), s)
  {
  }

  /** A call that holds a current copy changes it and writes it. */
  lemma HeldCallEnds(m: Modify, steps: seq<Step>, id: nat)
    requires var w := Run(m, steps);
             id in w.calls && w.stored.Some? && w.calls[id].stage == Holding(w.version, w.stored.value)
    ensures var w, w' := Run(m, steps), Run(m, steps + [Change(id)] + [Update(id)]);
            var op := w.calls[id].op;
            var (c, answer) := m(op, w.stored.value, w.now);
            w'.stored == Some(c) && w'.log == w.log + [Applied(id, op, w.now)] && w'.now == w.now
            && w'.calls == w.calls[id := w.calls[id].(answer := answer, stage := Returned(None, false))]
  {
    OneMore(m, steps, Change(id));
    OneMore(m, steps + [Change(id)], Update(id));
    hide Run;
  }

  /** The steps of a call that nobody disturbs, on an object that exists or that it has to create. */
  function Undisturbed(id: nat, op: Op, present: bool): seq<Step> {
    [Begin(id, op), Get(id)] + (if present then [] else [Create(id), Reload(id)]) + [Change(id)] + [Update(id)]
  }

  lemma HoldsCopy(m: Modify, steps: seq<Step>, id: nat, op: Op)
    requires id !in Run(m, steps).calls && Run(m, steps).stored.Some?
    ensures var w, w' := Run(m, steps), Run(m, steps + [Begin(id, op)] + [Get(id)]);
            w' == w.(calls := w.calls[id := Call(op, |w.log|, 0, Nothing, Holding(w.version, w.stored.value))])
  {
    OneMore(m, steps, Begin(id, op));
    OneMore(m, steps + [Begin(id, op)], Get(id));
    hide Run;
  }

  lemma CreatesAndHolds(m: Modify, steps: seq<Step>, id: nat, op: Op)
    requires id !in Run(m, steps).calls && Run(m, steps).stored.None? && op.Register?
    ensures var w := Run(m, steps);
            var w' := Run(m, steps + [Begin(id, op)] + [Get(id)] + [Create(id)] + [Reload(id)]);
            w' == w.(stored := Some(NEW_CACHE), version := w.version + 1, log := w.log + [Created],
                     calls := w.calls[id := Call(op, |w.log|, 0, Nothing, Holding(w.version + 1, NEW_CACHE))])
  {
    OneMore(m, steps, Begin(id, op));
    OneMore(m, steps + [Begin(id, op)], Get(id));
    OneMore(m, steps + [Begin(id, op)] + [Get(id)], Create(id));
    OneMore(m, steps + [Begin(id, op)] + [Get(id)] + [Create(id)], Reload(id));
    hide Run;
    var w := Run(m, steps);
    var call := Call(op, |w.log|, 0, Nothing, Reading);
    var w1 := Put(w, id, call);
    assert Next(m, w, Begin(id, op)) == w1;
    var w2 := Put(w, id, call.(stage := Creating));
    assert Next(m, w1, Get(id)) == w2;
    var w3 := Store(Put(w, id, call.(stage := Reloading)), Some(NEW_CACHE), Created);
    assert Next(m, w2, Create(id)) == w3;
  }

  /**
    A call that nobody disturbs takes effect at its first attempt and returns without an error, after
    creating the object if it is missing and the call is a registration.
   */
  lemma UndisturbedCallSucceeds(m: Modify, steps: seq<Step>, id: nat, op: Op)
    requires id !in Run(m, steps).calls && (Run(m, steps).stored.Some? || op.Register?)
    ensures var w := Run(m, steps);
            var w' := Run(m, steps + Undisturbed(id, op, w.stored.Some?));
            var (c, answer) := m(op, if w.stored.Some? then w.stored.value else NEW_CACHE, w.now);
            w'.stored == Some(c) && w'.now == w.now
            && w'.log == w.log + (if w.stored.Some? then [] else [Created]) + [Applied(id, op, w.now)]
            && w'.calls == w.calls[id := Call(op, |w.log|, 0, answer, Returned(None, false))]
  {
    hide Next, Run;
    var w := Run(m, steps);
    var held := if w.stored.Some? then steps + [Begin(id, op)] + [Get(id)]
                else steps + [Begin(id, op)] + [Get(id)] + [Create(id)] + [Reload(id)];
    if w.stored.Some? {
      HoldsCopy(m, steps, id, op);
    } else {
      CreatesAndHolds(m, steps, id, op);
    }
    HeldCallEnds(m, held, id);
    assert steps + Undisturbed(id, op, w.stored.Some?) == held + [Change(id)] + [Update(id)];
  }

  /** Only a registration creates a missing object; any other call reports that it is missing at once. */
  lemma MissingIsReported(m: Modify, steps: seq<Step>, id: nat, op: Op)
    requires id !in Run(m, steps).calls && Run(m, steps).stored.None? && !op.Register?
    ensures var w, w' := Run(m, steps), Run(m, steps + [Begin(id, op)] + [Get(id)]);
            w'.stored.None? && w'.log == w.log && id in w'.calls
            && w'.calls[id].stage == Returned(Some(NotFound), false)
  {
    OneMore(m, steps, Begin(id, op));
    OneMore(m, steps + [Begin(id, op)], Get(id));
    hide Run;
  }

  lemma {:induction false} OnlyRegistrationsCreate(m: Modify, steps: seq<Step>, id: nat)
    ensures var w := Run(m, steps);
            id in w.calls && (w.calls[id].stage.Creating? || w.calls[id].stage.Reloading?) ==> w.calls[id].op.Register?
  {
    if steps != [] {
      OnlyRegistrationsCreate(m, steps[..|steps| - 1], id);
    }
  }

  // ---------------------------------------------------------------- calls one after the other

  /** What has taken effect stays, and so does a call that returned. */
  lemma NextExtends(m: Modify, w: World, s: Step, id: nat)
    ensures w.log <= Next(m, w, s).log
    ensures id in w.calls ==> id in Next(m, w, s).calls && Next(m, w, s).calls[id].since == w.calls[id].since
    ensures id in w.calls && w.calls[id].stage.Returned? ==> Next(m, w, s).calls[id] == w.calls[id]
  {
  }

  lemma {:induction false} RunExtends(m: Modify, steps: seq<Step>, b: nat, id: nat)
    requires b <= |steps|
    ensures var w0, w := Run(m, steps[..b]), Run(m, steps);
            w0.log <= w.log
            && (id in w0.calls ==> id in w.calls && w.calls[id].since == w0.calls[id].since)
            && (id in w0.calls && w0.calls[id].stage.Returned? ==> w.calls[id] == w0.calls[id])
  {
    if b == |steps| {
      assert steps[..b] == steps;
    } else {
      var shorter, last := steps[..|steps| - 1], steps[|steps| - 1];
      assert shorter[..b] == steps[..b];
      RunExtends(m, shorter, b, id);
      NextExtends(m, Run(m, shorter), last, id);
    }
  }

  lemma {:induction false} CountExtends(a: seq<Event>, b: seq<Event>, id: nat, i: nat)
    requires a <= b && |a| <= i < |b| && b[i].Applied? && b[i].id == id
    ensures Count(b, id) > Count(a, id)
    decreases |b|
  {
    var shorter := b[..|b| - 1];
    if i < |shorter| {
      CountExtends(a, shorter, id, i);
    } else {
      CountGrows(a, shorter, id);
    }
  }

  lemma {:induction false} CountGrows(a: seq<Event>, b: seq<Event>, id: nat)
    requires a <= b
    ensures Count(b, id) >= Count(a, id)
    decreases |b|
  {
    if a != b {
      CountGrows(a, b[..|b| - 1], id);
    }
  }

  /** A call that returned takes no effect afterwards. */
  lemma ReturnedIsOver(m: Modify, steps: seq<Step>, b: nat, id: nat, i: nat)
    requires b <= |steps| && id in Run(m, steps[..b]).calls && Run(m, steps[..b]).calls[id].stage.Returned?
    requires |Run(m, steps[..b]).log| <= i < |Run(m, steps).log|
    ensures !(Run(m, steps).log[i].Applied? && Run(m, steps).log[i].id == id)
  {
    hide Run, Next, Replay, Count;
    var w0, w := Run(m, steps[..b]), Run(m, steps);
    RunExtends(m, steps, b, id);
    Linearised(m, steps, id);
    Linearised(m, steps[..b], id);
    if w.log[i].Applied? && w.log[i].id == id {
      CountExtends(w0.log, w.log, id, i);
    }
  }

  /** The object is created only when it is missing. */
  ghost predicate CreatedWhenMissing(m: Modify, log: seq<Event>) {
    forall i | 0 <= i < |log| && log[i].Created? :: Replay(m, log[..i]).None?
  }

  lemma {:induction false} RunCreates(m: Modify, steps: seq<Step>)
    ensures CreatedWhenMissing(m, Run(m, steps).log)
  {
    if steps != [] {
      var shorter := steps[..|steps| - 1];
      RunCreates(m, shorter);
      RunInv(m, shorter);
      var w, w' := Run(m, shorter), Run(m, steps);
      NextCreates(m, w, steps[|steps| - 1]);
      forall i | 0 <= i < |w'.log| && w'.log[i].Created? ensures Replay(m, w'.log[..i]).None? {
        if i < |w.log| {
          assert w'.log[..i] == w.log[..i];
        } else {
          assert w'.log[..i] == w.log;
        }
      }
    }
  }

  lemma NextCreates(m: Modify, w: World, s: Step)
    ensures var log := Next(m, w, s).log;
            log == w.log || (log == w.log + [log[|w.log|]] && (log[|w.log|].Created? ==> w.stored.None?))
  {
  }

  /** Until it is deleted, an object stays, and it is not created again. */
  lemma {:induction false} ObjectStays(m: Modify, log: seq<Event>, k: nat, l: nat)
    requires k <= l <= |log| && Replay(m, log[..k]).Some? && CreatedWhenMissing(m, log)
    requires forall i | k <= i < l :: !log[i].Deleted?
    ensures Replay(m, log[..l]).Some? && forall i | k <= i < l :: !log[i].Created?
  {
    if k < l {
      ObjectStays(m, log, k, l - 1);
      assert log[..l] == log[..l - 1] + [log[l - 1]];
      Appended(m, log[..l - 1], log[l - 1]);
    }
  }
}
