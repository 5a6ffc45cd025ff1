/**
  A node's store that registers its volumes in the cluster (internal/ksync/syncedstore.go).

  `log` holds what took effect on the Cache, cluster-wide, and `live` the volumes that the local
  store holds.  Before the n-th update of this node, the updates `others(n)` of other nodes take
  effect; `outcome(n)` says what becomes of it and `clock(n)` when it happens.
 */
module SyncedStore {
  import opened Wrappers
  import opened CacheStatus
  import opened CacheInvariants
  import opened CacheSync
  import opened CacheRuns

  /** An update is carried out, fails, or is carried out and reported as failed. */
  datatype Outcome = Served | Denied | ReplyLost

  /**
    `stored`: the local store can mount a volume that it does not hold, or unmounts without an error.
    `undone`: a mount that fails leaves no volume behind.  `dropped`: unmounting deletes the volume.
   */
  datatype Action = Mounting(stored: bool, undone: bool) | Unmounting(stored: bool, dropped: bool)

  /** Whether the volume is live after actions whose updates are all served. */
  predicate LiveAfter(was: bool, actions: seq<Action>) {
    if actions == [] then was
    else
      var before := LiveAfter(was, actions[..|actions| - 1]);
      match actions[|actions| - 1]
      case Mounting(stored, undone) => before || stored || !undone
      case Unmounting(_, dropped) => before && !dropped
  }

  /** What an update makes of the registration of its volume. */
  predicate ListedAfter(op: Op, outcome: Outcome, listed: bool) {
    if outcome.Denied? || op.PrepareCommit? then listed else op.Register?
  }

  /**
    A mount leaves the registration in agreement with the local store; `first` and `second` are its
    updates, `live` says whether the store holds the volume afterwards.
   */
  predicate MountAgrees(first: Outcome, second: Outcome, live: bool, ok: bool) {
    match first
    case Denied => true
    case ReplyLost => live
    case Served => ok || (second.Denied? <==> live)
  }

  /** So does an unmount that ends with the given update. */
  predicate UnmountAgrees(last: Outcome, live: bool, dropped: bool) {
    !live || (dropped <==> !last.Denied?)
  }

  /** The node's last error on the Cache is this failure of the volume, or none. */
  ghost predicate Reports(log: seq<Event>, node: string, volume: string, failure: Option<string>) {
    Replay(Written, log).Some? &&
    var nodes := Replay(Written, log).value.nodes;
    var i := NodeIndex(nodes, node);
    i < |nodes| &&
    match failure
    case None => nodes[i].lastError == None
    case Some(message) =>
      nodes[i].lastError.Some? && nodes[i].lastError.value.volume == volume
      && nodes[i].lastError.value.message == message
  }

  class SynchronizedStore {
    const node: string
    const others: nat -> seq<Event>
    const outcome: nat -> Outcome
    const clock: nat -> int
    var turn: nat
    var log: seq<Event>
    var live: set<string>

    constructor (node: string, others: nat -> seq<Event>, outcome: nat -> Outcome, clock: nat -> int)
      ensures this.node == node && this.others == others && this.outcome == outcome && this.clock == clock
      ensures turn == 0 && log == [] && live == {}
    {
      this.node, this.others, this.outcome, this.clock := node, others, outcome, clock;
      turn, log, live := 0, [], {};
    }

    /** Nobody else worked on the volume or the object. */
    ghost predicate Alone(from: nat, volume: string)
      reads this
    {
      forall n, e | from <= n < turn && e in others(n) :: !Concerns(e, node, volume)
    }

    /** Besides, all updates of this node were served. */
    ghost predicate Steady(from: nat, volume: string)
      reads this
    {
      Alone(from, volume) && forall n | from <= n < turn :: outcome(n).Served?
    }

    ghost predicate Listed(volume: string)
      reads this
    {
      IsRegistered(log, node, volume)
    }

    /** The cluster lists the volume iff the node has it. */
    ghost predicate Agrees(volume: string)
      reads this
    {
      Listed(volume) <==> volume in live
    }

    /** One call of `updateCache`. */
    method Update(op: Op) returns (error: Option<Error>)
      requires op.node == node
      modifies this`turn, this`log
      ensures turn == old(turn) + 1
      ensures !outcome(old(turn)).Served? ==> error == Some(Failed)
      ensures outcome(old(turn)).Served? ==> error.None? || (error == Some(NotFound) && !op.Register?)
      ensures Alone(old(turn), op.volume) ==>
                (Listed(op.volume) <==> ListedAfter(op, outcome(old(turn)), old(Listed(op.volume))))
      ensures old(log) <= log
      ensures error.None? ==> log != [] && log[|log| - 1] == Applied(turn, op, clock(old(turn)))
      ensures op.Unregister? && !outcome(old(turn)).Denied? && Replay(Written, log).Some? ==>
                Reports(log, node, op.volume, op.failure)
    {
      hide Replay, IsRegistered, Concerns, Written, Reports;
      ghost var before := log;
      var noise := others(turn);
      log := log + noise;
      var result, now := outcome(turn), clock(turn);
      turn := turn + 1;
      ghost var alone := Alone(old(turn), op.volume);
      if alone {
        assert forall e | e in others(turn - 1) :: !Concerns(e, node, op.volume);
        NoiseKeepsRegistration(before, noise, node, op.volume);
      }
      if result.Denied? {
        return Some(Failed);
      }
      error := if result.Served? then None else Some(Failed);
      if Replay(Written, log).None? {
        if !op.Register? {
          NothingIsRegistered(log, node, op.volume);
          return if result.Served? then Some(NotFound) else Some(Failed);
        }
        ObjectIsThere(log);
        log := log + [Created];
      }
      OwnEvent(log, Applied(turn, op, now), node, op.volume);
      if op.Unregister? {
        OwnReport(log, Applied(turn, op, now));
      }
      log := log + [Applied(turn, op, now)];
    }

    /** Registers the volume, mounts it, and unregisters it again if that failed. */
    method Mount(cache: string, namespace: string, volume: string, image: string, stored: bool, undone: bool)
      returns (ok: bool)
      modifies this
      ensures if cache == "" || namespace == "" then turn == old(turn) && log == old(log) else turn > old(turn)
      ensures ok <==> cache != "" && namespace != "" && outcome(old(turn)).Served?
                      && stored && volume !in old(live)
      ensures live == if ok || (cache != "" && namespace != "" && outcome(old(turn)).Served? && !undone)
                      then old(live) + {volume} else old(live)
      ensures Steady(old(turn), volume) && cache != "" && namespace != "" ==> (Listed(volume) <==> ok)
      ensures Alone(old(turn), volume) && cache != "" && namespace != "" && old(Agrees(volume)) ==>
                (Agrees(volume) <==>
                   MountAgrees(outcome(old(turn)), outcome(old(turn) + 1), volume in live, ok))
      ensures ok ==> log != [] && log[|log| - 1] == Applied(turn, Register(node, volume, image, true), clock(old(turn)))
      ensures !ok && cache != "" && namespace != "" && outcome(old(turn)).Served?
              && !outcome(old(turn) + 1).Denied? && Replay(Written, log).Some? ==>
                Reports(log, node, volume, Some("mount"))
    {
      hide IsRegistered, Concerns, Reports, Replay;
      if cache == "" || namespace == "" {
        return false;
      }
      var error := Update(Register(node, volume, image, true));
      if error.Some? {
        return false;
      }
      ok := stored && volume !in live;
      if ok || !undone {
        live := live + {volume};
      }
      if !ok {
        var _ := Update(Unregister(node, volume, Some("mount")));
      }
    }

    /**
      Unmounts and unregisters.  The deferred unregistration overwrites the result, so it alone decides
      whether an error is returned; a failure of the store is left on the Cache only.
     */
    method Unmount(cache: string, namespace: string, volume: string, stored: bool, dropped: bool)
      returns (ok: bool)
      modifies this
      ensures if cache == "" || namespace == "" then turn == old(turn) && log == old(log) && live == old(live)
              else turn == old(turn) + 2
      ensures ok <==> cache != "" && namespace != "" && outcome(old(turn) + 1).Served?
      ensures cache != "" && namespace != "" ==> live == if dropped then old(live) - {volume} else old(live)
      ensures Steady(old(turn), volume) && cache != "" && namespace != "" ==> !Listed(volume)
      ensures Alone(old(turn), volume) && cache != "" && namespace != "" && old(Agrees(volume)) ==>
                (Agrees(volume) <==> UnmountAgrees(outcome(old(turn) + 1), volume in old(live), dropped))
      ensures cache != "" && namespace != "" && !outcome(old(turn) + 1).Denied? && Replay(Written, log).Some? ==>
                Reports(log, node, volume,
                        if !stored || volume !in old(live) then Some("unmount: store")
                        else if !outcome(old(turn)).Served? then Some("unmount: sync") else None)
    {
      hide IsRegistered, Concerns, Reports, Replay;
      if cache == "" || namespace == "" {
        return false;
      }
      var syncError := Update(PrepareCommit(node, volume));
      if syncError == Some(NotFound) {
        syncError := None;
      }
      var unmounted := stored && volume in live;
      if dropped {
        live := live - {volume};
      }
      var failure := if !unmounted then Some("unmount: store")
                     else if syncError.Some? then Some("unmount: sync") else None;
      var error := Update(Unregister(node, volume, failure));
      return error.None? || error.value.NotFound?;
    }

    /**
      For every sequence of operations on one volume, interleaved with any updates of other volumes,
      when all updates are served: the volume is listed iff the last operation was a successful mount,
      every unmount is reported as a success, and the node and the cluster agree in the end iff the
      last operation mounted a new volume or undid that, or left no volume behind that it unmounted.
     */
    method Perform(cache: string, namespace: string, volume: string, image: string, actions: seq<Action>)
      returns (results: seq<bool>)
      requires cache != "" && namespace != ""
      modifies this
      ensures |results| == |actions|
      ensures Steady(old(turn), volume) ==>
                (volume in live <==> LiveAfter(volume in old(live), actions)) &&
                forall i | 0 <= i < |actions| ::
                  results[i] <==>
                    actions[i].Mounting? ==> actions[i].stored && !LiveAfter(volume in old(live), actions[..i])
      ensures Steady(old(turn), volume) && actions != [] ==>
                var last := |actions| - 1;
                var before := LiveAfter(volume in old(live), actions[..last]);
                (Listed(volume) <==> actions[last].Mounting? && results[last]) &&
                (Agrees(volume) <==>
                   match actions[last]
                   case Mounting(stored, undone) => !before && (stored || undone)
                   case Unmounting(_, dropped) => !before || dropped)
    {
      hide IsRegistered, Concerns;
      results := [];
      for i := 0 to |actions|
        invariant |results| == i && turn >= old(turn)
        invariant Steady(old(turn), volume) ==>
                    (volume in live <==> LiveAfter(volume in old(live), actions[..i])) &&
                    forall k | 0 <= k < i ::
                      results[k] <==>
                        actions[k].Mounting? ==> actions[k].stored && !LiveAfter(volume in old(live), actions[..k])
        invariant Steady(old(turn), volume) && i > 0 ==>
                    (Listed(volume) <==> actions[i - 1].Mounting? && results[i - 1])
      {
        ghost var before := turn;
        assert actions[..i + 1][..i] == actions[..i];
        var ok;
        match actions[i] {
          case Mounting(stored, undone) => ok := Mount(cache, namespace, volume, image, stored, undone);
          case Unmounting(stored, dropped) => ok := Unmount(cache, namespace, volume, stored, dropped);
        }
        assert Steady(old(turn), volume) ==> Steady(before, volume);
        results := results + [ok];
      }
      assert actions[..|actions|] == actions;
    }
  }

  lemma NothingIsRegistered(log: seq<Event>, node: string, volume: string)
    requires Replay(Written, log).None?
    ensures !IsRegistered(log, node, volume)
  {
  }

  lemma ObjectIsThere(log: seq<Event>)
    ensures Replay(Written, log + [Created]).Some?
  {
    Appended(Written, log, Created);
  }

  lemma OwnEvent(log: seq<Event>, e: Event, node: string, volume: string)
    requires e.Applied? && e.op.node == node && e.op.volume == volume && Replay(Written, log).Some?
    ensures e.op.PrepareCommit? ==> (IsRegistered(log + [e], node, volume) <==> IsRegistered(log, node, volume))
    ensures !e.op.PrepareCommit? ==> (IsRegistered(log + [e], node, volume) <==> e.op.Register?)
  {
    EffectOnRegistration(log, e, node, volume);
  }

  lemma OwnReport(log: seq<Event>, e: Event)
    requires e.Applied? && e.op.Unregister? && Replay(Written, log).Some?
    ensures Reports(log + [e], e.op.node, e.op.volume, e.op.failure)
  {
    Appended(Written, log, e);
    ReplaySound(log);
    UnregisterKeeps(Replay(Written, log).value, e.op.node, e.op.volume, e.op.failure, e.at);
  }

  /**
    A live volume that the cluster does not list: it is mounted a second time, which fails, and the
    deferred unregistration removes the entry of the first mount.
   */
  method SecondMountUnlists(node: string, volume: string) returns (s: SynchronizedStore)
    ensures fresh(s) && s.node == node && s.Steady(0, volume)
    ensures volume in s.live && !s.Listed(volume)
  {
    s := new SynchronizedStore(node, n => [], n => Served, n => n);
    var first := s.Mount("cache", "namespace", volume, "", true, true);
    var second := s.Mount("cache", "namespace", volume, "", true, true);
  }
}
