/** A call whose write is refused starts over, up to ten times (internal/ksync/sync.go, `updateCache`). */
module CacheRetries {
  import opened Wrappers
  import opened CacheStatus
  import opened CacheSync

  /** The call is about to write a copy that is out of date. */
  predicate Outdated(w: World, id: nat) {
    id in w.calls && w.calls[id].stage.Writing? && w.stored.Some? && w.calls[id].stage.version != w.version
  }

  /** How many writes of the call were refused. */
  function Refusals(m: Modify, steps: seq<Step>, id: nat): nat {
    if steps == [] then 0
    else
      var before, last := steps[..|steps| - 1], steps[|steps| - 1];
      Refusals(m, before, id) + if last == Update(id) && Outdated(Run(m, before), id) then 1 else 0
  }

  predicate GaveUp(call: Call) {
    call.stage.Returned? && call.stage.error == Some(Conflict)
  }

  /** A call that gave up had ten writes refused, and no other call had that many. */
  ghost predicate Counted(w: World, id: nat, refusals: nat) {
    if id !in w.calls then refusals == 0
    else if GaveUp(w.calls[id]) then refusals == 10
    else refusals == w.calls[id].attempts < 10
  }

  lemma NextCounts(m: Modify, w: World, s: Step, id: nat, refusals: nat)
    requires Counted(w, id, refusals)
    ensures Counted(Next(m, w, s), id, refusals + if s == Update(id) && Outdated(w, id) then 1 else 0)
  {
  }

  /** In every run, a conflict is returned iff exactly ten writes were refused; no call has more refused. */
  lemma {:induction false} GivesUpAfterTen(m: Modify, steps: seq<Step>, id: nat)
    ensures Counted(Run(m, steps), id, Refusals(m, steps, id))
  {
    if steps != [] {
      hide Next, Counted;
      var before, last := steps[..|steps| - 1], steps[|steps| - 1];
      GivesUpAfterTen(m, before, id);
      NextCounts(m, Run(m, before), last, id, Refusals(m, before, id));
    } else {
      NothingCounted(id);
    }
  }

  lemma NothingCounted(id: nat)
    ensures Counted(START, id, 0)
  {
  }

  /** A call whose write is refused for the n-th time, n < 10, reads again; nothing else changes. */
  lemma RefusedReadsAgain(m: Modify, steps: seq<Step>, id: nat)
    requires Outdated(Run(m, steps), id) && Refusals(m, steps, id) + 1 < 10
    ensures var w, w' := Run(m, steps), Run(m, steps + [Update(id)]);
            w' == w.(calls := w'.calls) && id in w'.calls
            && w'.calls == w.calls[id := w'.calls[id]]
            && w'.calls[id] == w.calls[id].(attempts := Refusals(m, steps, id) + 1, stage := Reading)
  {
    GivesUpAfterTen(m, steps, id);
    OneMore(m, steps, Update(id));
  }

  /**
    A call that is overtaken n < 10 times and undisturbed afterwards returns no error and takes effect
    exactly once, on the object of that moment.
   */
  lemma RetrySucceeds(m: Modify, steps: seq<Step>, id: nat)
    requires Outdated(Run(m, steps), id) && Refusals(m, steps, id) + 1 < 10
    ensures var w := Run(m, steps);
            var w' := Run(m, steps + [Update(id)] + [Get(id)] + [Change(id)] + [Update(id)]);
            var op := w.calls[id].op;
            var (c, answer) := m(op, w.stored.value, w.now);
            w'.stored == Some(c) && w'.log == w.log + [Applied(id, op, w.now)] && Count(w'.log, id) == 1
            && id in w'.calls && w'.calls[id].stage == Returned(None, false) && w'.calls[id].answer == answer
  {
    var w := Run(m, steps);
    RefusedReadsAgain(m, steps, id);
    var again := steps + [Update(id)];
    var held := again + [Get(id)];
    OneMore(m, again, Get(id));
    HeldCallEnds(m, held, id);
    Linearised(m, held + [Change(id)] + [Update(id)], id);
  }

  // ---------------------------------------------------------------- what overtook it

  /** The copy that the call holds was read with step `j`, when this many events had taken effect. */
  ghost predicate ReadWith(m: Modify, steps: seq<Step>, id: nat, j: nat, version: nat) {
    j < |steps| && (steps[j] == Get(id) || steps[j] == Reload(id))
    && var w := Run(m, steps[..j + 1]);
       id in w.calls && w.calls[id].stage.Holding? && w.calls[id].stage.version == version == |w.log|
  }

  predicate HasCopy(w: World, id: nat) {
    id in w.calls && (w.calls[id].stage.Holding? || w.calls[id].stage.Writing?)
  }

  lemma NextKeepsCopy(m: Modify, w: World, s: Step, id: nat)
    requires HasCopy(Next(m, w, s), id)
    ensures (HasCopy(w, id) && Next(m, w, s).calls[id].stage.version == w.calls[id].stage.version)
            || ((s == Get(id) || s == Reload(id)) && Next(m, w, s).calls[id].stage.Holding?
                && Next(m, w, s).calls[id].stage.version == w.version && Next(m, w, s).log == w.log)
  {
  }

  lemma {:induction false} CopyWasRead(m: Modify, steps: seq<Step>, id: nat) returns (j: nat)
    requires HasCopy(Run(m, steps), id)
    ensures ReadWith(m, steps, id, j, Run(m, steps).calls[id].stage.version)
  {
    var before, last := steps[..|steps| - 1], steps[|steps| - 1];
    NextKeepsCopy(m, Run(m, before), last, id);
    RunOvertakes(m, before);
    if HasCopy(Run(m, before), id)
       && Run(m, steps).calls[id].stage.version == Run(m, before).calls[id].stage.version
    {
      j := CopyWasRead(m, before, id);
      assert before[..j + 1] == steps[..j + 1];
    } else {
      j := |steps| - 1;
      assert steps[..j + 1] == steps;
    }
  }

  /** A refused write was overtaken: since the copy was read, something that is not this call's took effect. */
  lemma RefusedWasOvertaken(m: Modify, steps: seq<Step>, id: nat) returns (j: nat, e: nat)
    requires Outdated(Run(m, steps), id)
    ensures j < |steps| && (steps[j] == Get(id) || steps[j] == Reload(id))
    ensures |Run(m, steps[..j + 1]).log| <= e < |Run(m, steps).log|
    ensures !(Run(m, steps).log[e].Applied? && Run(m, steps).log[e].id == id)
  {
    var w := Run(m, steps);
    j := CopyWasRead(m, steps, id);
    e := w.calls[id].stage.version;
    RunOvertakes(m, steps);
    RunInv(m, steps);
    assert Fine(m, w, id, w.calls[id]);
    assert Overtaken(w, w.calls[id]);
    hide Run, Next, Replay;
    if w.log[e].Applied? && w.log[e].id == id {
      CountExtends([], w.log, id, e);
    }
  }

  // ---------------------------------------------------------------- and it does happen

  /** Somebody edits the object between the read and the write of the call. */
  function Overtaking(id: nat): seq<Step> {
    [Get(id), Change(id), Edit(false, false), Update(id)]
  }

  lemma OvertakenOnce(m: Modify, steps: seq<Step>, id: nat)
    requires id in Run(m, steps).calls && Run(m, steps).calls[id].stage == Reading && Run(m, steps).stored.Some?
    ensures var w' := Run(m, steps + Overtaking(id));
            w'.stored.Some? && id in w'.calls && Refusals(m, steps + Overtaking(id), id) == Refusals(m, steps, id) + 1
            && w'.calls[id].stage ==
                 if Refusals(m, steps, id) + 1 < 10 then Reading else Returned(Some(Conflict), false)
  {
    GivesUpAfterTen(m, steps, id);
    var a := steps + [Get(id)];
    var b := a + [Change(id)];
    var c := b + [Edit(false, false)];
    OneMore(m, steps, Get(id));
    OneMore(m, a, Change(id));
    OneMore(m, b, Edit(false, false));
    OneMore(m, c, Update(id));
    RefusalsMore(m, steps, Get(id), id);
    RefusalsMore(m, a, Change(id), id);
    RefusalsMore(m, b, Edit(false, false), id);
    RefusalsMore(m, c, Update(id), id);
    assert steps + Overtaking(id) == c + [Update(id)];
    hide Run, Refusals;
  }

  lemma RefusalsMore(m: Modify, steps: seq<Step>, s: Step, id: nat)
    ensures Refusals(m, steps + [s], id) ==
              Refusals(m, steps, id) + if s == Update(id) && Outdated(Run(m, steps), id) then 1 else 0
  {
    assert (steps + [s])[..|steps|] == steps;
  }

  function OvertakenTimes(id: nat, n: nat): seq<Step> {
    if n == 0 then [] else OvertakenTimes(id, n - 1) + Overtaking(id)
  }

  /**
    From every reachable state with an object: a new call that was overtaken nine times still tries, and
    one that was overtaken ten times gives up.
   */
  lemma {:induction false} TenAttempts(m: Modify, steps: seq<Step>, id: nat, op: Op, n: nat)
    requires id !in Run(m, steps).calls && Run(m, steps).stored.Some? && n <= 10
    ensures var all := steps + [Begin(id, op)] + OvertakenTimes(id, n);
            var w := Run(m, all);
            w.stored.Some? && id in w.calls && Refusals(m, all, id) == n
            && w.calls[id].stage == if n < 10 then Reading else Returned(Some(Conflict), false)
    decreases n
  {
    var begun := steps + [Begin(id, op)];
    if n == 0 {
      OneMore(m, steps, Begin(id, op));
      GivesUpAfterTen(m, begun, id);
      assert begun + [] == begun;
    } else {
      hide Run, Refusals;
      TenAttempts(m, steps, id, op, n - 1);
      OvertakenOnce(m, begun + OvertakenTimes(id, n - 1), id);
      assert begun + OvertakenTimes(id, n) == begun + OvertakenTimes(id, n - 1) + Overtaking(id);
    }
  }
}
