/** What holds of the Cache in every run of concurrent updates (internal/ksync/sync.go). */
module CacheRuns {
  import opened Wrappers
  import opened CacheStatus
  import opened CacheInvariants
  import opened CacheSync

  lemma SoundIsUnlocked(c: Cache)
    requires Sound(c)
    ensures NoLocks(c.nodes)
  {
  }

  lemma NewIsSound()
    ensures Sound(NEW_CACHE)
  {
  }

  lemma EffectKeeps(stored: Option<Cache>, e: Event)
    requires stored.Some? ==> Sound(stored.value)
    ensures var after := Effect(Written, stored, e);
            after.Some? ==>
              Sound(after.value) &&
              (stored.Some? && !e.Created? ==> stored.value.generation <= after.value.generation)
  {
    hide SoundNodes, RegisterIn, UnregisterIn, PrepareCommitIn;
    if stored.Some? && e.Applied? {
      match e.op
      case Register(node, volume, image, commit) =>
        RegisterKeeps(stored.value, node, volume, image, commit, e.at);
      case PrepareCommit(node, volume) =>
        assert NoLocks(stored.value.nodes) by {
          SoundIsUnlocked(stored.value);
        }
        NeverGranted(stored.value, node, volume, e.at);
      case Unregister(node, volume, failure) =>
        UnregisterKeeps(stored.value, node, volume, failure, e.at);
    } else if e.Created? {
      NewIsSound();
    }
  }

  lemma {:induction false} ReplaySound(log: seq<Event>)
    ensures Replay(Written, log).Some? ==> Sound(Replay(Written, log).value)
  {
    if log != [] {
      ReplaySound(log[..|log| - 1]);
      EffectKeeps(Replay(Written, log[..|log| - 1]), log[|log| - 1]);
    }
  }

  /**
    In every run: node names are unique, volume names are unique per node, no volume is newer
    than the counter, committable volumes have distinct generations, and nothing is locked.
   */
  lemma StatusSound(steps: seq<Step>)
    ensures var stored := Run(Written, steps).stored;
            stored.Some? ==> Sound(stored.value)
  {
    RunInv(Written, steps);
    ReplaySound(Run(Written, steps).log);
  }

  /** The same object from the k-th event on: it was neither deleted nor created anew. */
  ghost predicate SameObject(log: seq<Event>, k: nat) {
    k <= |log| && forall i | k <= i < |log| :: !log[i].Created? && !log[i].Deleted?
  }

  /** The generation of an object never decreases. */
  lemma {:induction false} GenerationGrows(log: seq<Event>, k: nat)
    requires SameObject(log, k) && Replay(Written, log[..k]).Some?
    ensures Replay(Written, log).Some?
    ensures Replay(Written, log[..k]).value.generation <= Replay(Written, log).value.generation
  {
    if k == |log| {
      assert log[..k] == log;
    } else {
      var shorter := log[..|log| - 1];
      assert shorter[..k] == log[..k];
      GenerationGrows(shorter, k);
      ReplaySound(shorter);
      EffectKeeps(Replay(Written, shorter), log[|log| - 1]);
    }
  }

  function Registrations(log: seq<Event>): nat {
    if log == [] then 0
    else
      var last := log[|log| - 1];
      Registrations(log[..|log| - 1]) + (if last.Applied? && last.op.Register? then 1 else 0)
  }

  /** The usage counter counts the registrations that took effect, repeated ones included. */
  lemma {:induction false} UsedCounts(log: seq<Event>, k: nat)
    requires SameObject(log, k) && Replay(Written, log[..k]).Some?
    ensures Replay(Written, log).Some?
    ensures Replay(Written, log).value.used - Replay(Written, log[..k]).value.used ==
              Registrations(log) - Registrations(log[..k])
  {
    if k == |log| {
      assert log[..k] == log;
    } else {
      var shorter := log[..|log| - 1];
      assert shorter[..k] == log[..k];
      UsedCounts(shorter, k);
      ReplaySound(shorter);
      var e, c := log[|log| - 1], Replay(Written, shorter).value;
      if e.Applied? {
        match e.op
        case Register(node, volume, image, commit) => RegisterKeeps(c, node, volume, image, commit, e.at);
        case PrepareCommit(node, volume) => NeverGranted(c, node, volume, e.at);
        case Unregister(_, _, _) =>
      }
    }
  }

  /** The first image that is set stays, and every registration answers the image that is stored. */
  lemma {:induction false} ImageStays(log: seq<Event>, k: nat)
    requires SameObject(log, k) && Replay(Written, log[..k]).Some? && Replay(Written, log[..k]).value.image != ""
    ensures Replay(Written, log).Some?
    ensures Replay(Written, log).value.image == Replay(Written, log[..k]).value.image
  {
    if k == |log| {
      assert log[..k] == log;
    } else {
      var shorter := log[..|log| - 1];
      assert shorter[..k] == log[..k];
      ImageStays(shorter, k);
      ReplaySound(shorter);
      var e, c := log[|log| - 1], Replay(Written, shorter).value;
      if e.Applied? && e.op.PrepareCommit? {
        NeverGranted(c, e.op.node, e.op.volume, e.at);
      }
    }
  }

  /**
    All nodes agree on the image: after a registration with a default image, every other is answered the
    image that this one was, which is its own default if none was stored before.
   */
  lemma RegistrationsAgree(log: seq<Event>, j: nat, k: nat)
    requires j < k < |log| && SameObject(log[..k], j) && Replay(Written, log[..j]).Some?
    requires log[j].Applied? && log[j].op.Register? && log[j].op.image != ""
    requires log[k].Applied? && log[k].op.Register?
    ensures Replay(Written, log[..k]).Some?
    ensures Written(log[j].op, Replay(Written, log[..j]).value, log[j].at).1 ==
              Written(log[k].op, Replay(Written, log[..k]).value, log[k].at).1
    ensures Replay(Written, log[..j]).value.image == "" ==>
              Written(log[k].op, Replay(Written, log[..k]).value, log[k].at).1 == Image(log[j].op.image)
              && Replay(Written, log[..k]).value.image == log[j].op.image
  {
    var middle := log[..k];
    assert middle[..j + 1] == log[..j] + [log[j]];
    Appended(Written, log[..j], log[j]);
    assert SameObject(middle, j + 1);
    ImageStays(middle, j + 1);
  }

  /** As written, no call is ever granted a commit, whatever the others do. */
  lemma NoCommitEver(steps: seq<Step>, id: nat)
    ensures var w := Run(Written, steps);
            id in w.calls && w.calls[id].op.PrepareCommit?
            && w.calls[id].stage == Returned(None, false) ==>
              w.calls[id].answer == Commit(false)
  {
    var w := Run(Written, steps);
    if id in w.calls && w.calls[id].op.PrepareCommit? && w.calls[id].stage == Returned(None, false) {
      var call := w.calls[id];
      Linearised(Written, steps, id);
      var k: nat :| AppliedAt(Written, w.log, id, call, k);
      ReplaySound(w.log[..k]);
      NeverGranted(Replay(Written, w.log[..k]).value, call.op.node, call.op.volume, w.log[k].at);
    }
  }

  // ---------------------------------------------------------------- registration

  ghost predicate IsRegistered(log: seq<Event>, node: string, volume: string) {
    Replay(Written, log).Some? && Registered(Replay(Written, log).value, node, volume)
  }

  /** The event is about this volume: it registers or unregisters it, or the object comes or goes. */
  predicate Concerns(e: Event, node: string, volume: string) {
    match e
    case Created => true
    case Deleted => true
    case Edited(_, _) => false
    case Applied(_, op, _) => !op.PrepareCommit? && op.node == node && op.volume == volume
  }

  /** Everything else leaves the registration alone. */
  lemma EffectOnRegistration(log: seq<Event>, e: Event, node: string, volume: string)
    ensures Concerns(e, node, volume) ==>
              (IsRegistered(log + [e], node, volume) <==>
                 Replay(Written, log).Some? && e.Applied? && e.op.Register?)
    ensures !Concerns(e, node, volume) ==>
              (Replay(Written, log + [e]).Some? <==> Replay(Written, log).Some?) &&
              (IsRegistered(log + [e], node, volume) <==> IsRegistered(log, node, volume))
  {
    Appended(Written, log, e);
    ReplaySound(log);
    if e.Applied? && Replay(Written, log).Some? {
      var c := Replay(Written, log).value;
      match e.op
      case Register(n, v, image, commit) =>
        RegisterKeeps(c, n, v, image, commit, e.at);
        if n != node || v != volume {
          RegisterKeepsOthers(c, n, v, image, commit, e.at, node, volume);
        }
      case PrepareCommit(n, v) =>
        NeverGranted(c, n, v, e.at);
      case Unregister(n, v, failure) =>
        UnregisterKeeps(c, n, v, failure, e.at);
        if n != node || v != volume {
          UnregisterKeepsOthers(c, n, v, failure, e.at, node, volume);
        }
    }
  }

  lemma {:induction false} NoiseKeepsRegistration(
    log: seq<Event>, noise: seq<Event>, node: string, volume: string)
    requires forall e | e in noise :: !Concerns(e, node, volume)
    ensures Replay(Written, log + noise).Some? <==> Replay(Written, log).Some?
    ensures IsRegistered(log + noise, node, volume) <==> IsRegistered(log, node, volume)
  {
    hide Replay, IsRegistered, Concerns;
    if noise == [] {
      assert log + noise == log;
    } else {
      var shorter, last := noise[..|noise| - 1], noise[|noise| - 1];
      NoiseKeepsRegistration(log, shorter, node, volume);
      assert log + noise == (log + shorter) + [last];
      EffectOnRegistration(log + shorter, last, node, volume);
    }
  }

  /** A volume is registered iff it was registered after it was last unregistered. */
  lemma LastEventDecides(log: seq<Event>, k: nat, node: string, volume: string)
    requires k < |log| && log[k].Applied? && Concerns(log[k], node, volume)
    requires Replay(Written, log[..k]).Some?
    requires forall i | k < i < |log| :: !Concerns(log[i], node, volume)
    ensures IsRegistered(log, node, volume) <==> log[k].op.Register?
  {
    assert log[..k + 1] == log[..k] + [log[k]];
    EffectOnRegistration(log[..k], log[k], node, volume);
    NoiseKeepsRegistration(log[..k + 1], log[k + 1..], node, volume);
    assert log == log[..k + 1] + log[k + 1..];
  }

  predicate SameVolume(a: Op, b: Op) {
    !a.PrepareCommit? && a.node == b.node && a.volume == b.volume
  }

  /**
    The call is alone with its volume: every other call that registers or unregisters it returned
    before this one began with step `b`, and the object has not been deleted since.
   */
  ghost predicate LastCall(steps: seq<Step>, b: nat, id: nat) {
    b < |steps| && steps[b].Begin? && steps[b].id == id
    && var w0, w := Run(Written, steps[..b]), Run(Written, steps);
       id !in w0.calls && id in w.calls && w.calls[id].stage.Returned? && w.calls[id].stage.error.None?
       && (forall j | j in w.calls && j != id && SameVolume(w.calls[j].op, w.calls[id].op) ::
             j in w0.calls && w0.calls[j].stage.Returned?)
       && (forall i | |w0.log| <= i < |w.log| :: !w.log[i].Deleted?)
  }

  lemma BeginsThen(steps: seq<Step>, b: nat, id: nat)
    requires LastCall(steps, b, id)
    ensures Run(Written, steps).calls[id].since == |Run(Written, steps[..b]).log|
  {
    assert steps[..b + 1][..b] == steps[..b];
    RunExtends(Written, steps, b + 1, id);
  }

  /** Every event that changes a registration is one of a call that is about that volume. */
  lemma {:induction false} EventHasCall(steps: seq<Step>, i: nat)
    requires i < |Run(Written, steps).log| && Run(Written, steps).log[i].Applied?
    ensures var w := Run(Written, steps);
            w.log[i].id in w.calls && w.calls[w.log[i].id].op == w.log[i].op
  {
    if steps != [] {
      var shorter, last := steps[..|steps| - 1], steps[|steps| - 1];
      var w, w' := Run(Written, shorter), Run(Written, steps);
      if i < |w.log| {
        EventHasCall(shorter, i);
        NextKeepsOps(w, last, w.log[i].id);
        NextExtends(Written, w, last, w.log[i].id);
      }
    }
  }

  lemma NextKeepsOps(w: World, s: Step, id: nat)
    ensures id in w.calls ==> id in Next(Written, w, s).calls && Next(Written, w, s).calls[id].op == w.calls[id].op
  {
  }

  lemma LaterEventsAreForeign(steps: seq<Step>, b: nat, id: nat, k: nat, i: nat)
    requires LastCall(steps, b, id) && AppliedAt(Written, Run(Written, steps).log, id, Run(Written, steps).calls[id], k)
    requires k < i < |Run(Written, steps).log| && Run(Written, steps).log[i].Applied?
    ensures var w := Run(Written, steps);
            !SameVolume(w.log[i].op, w.calls[id].op)
  {
    hide Run, Next, Replay, Count, Written;
    var w := Run(Written, steps);
    EventHasCall(steps, i);
    BeginsThen(steps, b, id);
    Linearised(Written, steps, id);
    if w.log[i].id == id {
      CountTwice(w.log, id, k, i);
    } else if SameVolume(w.log[i].op, w.calls[id].op) {
      ReturnedIsOver(Written, steps, b, w.log[i].id, i);
    }
  }

  lemma CountTwice(log: seq<Event>, id: nat, k: nat, i: nat)
    requires k < i < |log| && log[k].Applied? && log[i].Applied? && log[k].id == id && log[i].id == id
    ensures Count(log, id) >= 2
  {
    CountExtends([], log[..k + 1], id, k);
    CountExtends(log[..k + 1], log, id, i);
  }

  /**
    In every interleaving: after a call that is alone with its volume and returned no error, the
    volume is registered iff the call was a registration.
   */
  lemma LastCallDecides(steps: seq<Step>, b: nat, id: nat)
    requires LastCall(steps, b, id) && !Run(Written, steps).calls[id].op.PrepareCommit?
    ensures var w := Run(Written, steps);
            var op := w.calls[id].op;
            (w.stored.Some? && Registered(w.stored.value, op.node, op.volume)) <==> op.Register?
  {
    hide Run, Next, Replay, Count, Written;
    var w := Run(Written, steps);
    var call := w.calls[id];
    RunInv(Written, steps);
    RunCreates(Written, steps);
    Linearised(Written, steps, id);
    BeginsThen(steps, b, id);
    var k: nat :| AppliedAt(Written, w.log, id, call, k);
    ObjectStays(Written, w.log, k, |w.log|);
    forall i | k < i < |w.log| ensures !Concerns(w.log[i], call.op.node, call.op.volume) {
      if w.log[i].Applied? {
        LaterEventsAreForeign(steps, b, id, k, i);
      }
    }
    LastEventDecides(w.log, k, call.op.node, call.op.volume);
  }

  const A := Volume("a", 1, 0, true, None)
  const B := Volume("b", 2, 0, true, None)
  const WITH_A := Cache(false, false, "", 1, 1, [Node("node", 0, [A], None)])
  const WITH_BOTH := Cache(false, false, "", 2, 2, [Node("node", 0, [A, B], None)])

  lemma BothRegister()
    ensures RegisterIn(NEW_CACHE, "node", "a", "", true, 0).0 == WITH_A
    ensures RegisterIn(WITH_A, "node", "b", "", true, 0).0 == WITH_BOTH
  {
    assert Upserted([], "node", 0) == [Node("node", 0, [], None)];
    assert [] + [A] == [A];
    assert Upserted(WITH_A.nodes, "node", 0) == WITH_A.nodes;
    assert VolumeIndex([A], "b") == 1;
    assert [A] + [B] == [A, B];
  }

  lemma FirstUnregisters()
    ensures var after := UnregisterIn(WITH_BOTH, "node", "a", Some("failed"), 0);
            |after.nodes| == 1 && after.nodes[0].lastError == Some(VolumeError("a", Some(2), "failed", 0))
  {
    assert [A, B][1..] == [B] && [B][1..] == [];
    assert WithoutVolume([A, B], "a") == WithoutVolume([B], "a");
    assert WithoutVolume([B], "a") == [B];
  }

  /**
    A run in which the generation is wrong: two volumes are registered one after the other, and a failed
    unmount of the first is recorded with the generation of the second.
   */
  lemma WrongGenerationReported() returns (steps: seq<Step>, unregister: seq<Step>)
    ensures Run(Written, steps).stored == Some(WITH_BOTH)
    ensures unregister == Undisturbed(2, Unregister("node", "a", Some("failed")), true)
    ensures var stored := Run(Written, steps + unregister).stored;
            stored.Some? && |stored.value.nodes| == 1
            && stored.value.nodes[0].lastError == Some(VolumeError("a", Some(2), "failed", 0))
  {
    BothRegister();
    FirstUnregisters();
    var registerA, registerB := Register("node", "a", "", true), Register("node", "b", "", true);
    var none: seq<Step> := [];
    var start := Run(Written, none);
    assert start == START;
    hide Run, RegisterIn, UnregisterIn;
    UndisturbedCallSucceeds(Written, none, 0, registerA);
    var first := none + Undisturbed(0, registerA, false);
    UndisturbedCallSucceeds(Written, first, 1, registerB);
    steps := first + Undisturbed(1, registerB, true);
    unregister := Undisturbed(2, Unregister("node", "a", Some("failed")), true);
    UndisturbedCallSucceeds(Written, steps, 2, Unregister("node", "a", Some("failed")));
  }
}
