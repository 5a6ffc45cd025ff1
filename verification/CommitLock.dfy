/**
  The commit lock as internal/ksync/sync.go intends it: the scan skips volumes that do not
  commit, drops volumes whose commit timed out, and reports a commit in progress only for a
  lock that is still young.  The asking volume is looked up again after the scan, because the
  scan replaces volume lists.  Everything else is as written.
 */
module CommitLock {
  import opened Wrappers
  import opened CacheStatus
  import opened CacheInvariants
  import opened CacheSync

  predicate Young(v: Volume, now: int) {
    v.lock.Some? && !Expired(v, now)
  }

  predicate AnyYoung(nodes: seq<Node>, now: int) {
    exists i, v | 0 <= i < |nodes| && v in nodes[i].volumes :: Young(v, now)
  }

  function Unexpired(volumes: seq<Volume>, now: int): seq<Volume> {
    if volumes == [] then []
    else (if Expired(volumes[0], now) then [] else [volumes[0]]) + Unexpired(volumes[1..], now)
  }

  /** The last volume of the list whose commit timed out; its error is the one that stays. */
  function LastExpired(volumes: seq<Volume>, now: int): Option<Volume> {
    if volumes == [] then None
    else if Expired(volumes[|volumes| - 1], now) then Some(volumes[|volumes| - 1])
    else LastExpired(volumes[..|volumes| - 1], now)
  }

  function PurgedNode(n: Node, now: int): Node {
    match LastExpired(n.volumes, now)
    case None => n
    case Some(v) =>
      n.(volumes := Unexpired(n.volumes, now), lastUsed := now,
         lastError := Some(VolumeError(v.name, Some(v.generation), "commit timed out", now)))
  }

  function Purged(nodes: seq<Node>, now: int): (r: seq<Node>)
    ensures |r| == |nodes|
  {
    if nodes == [] then [] else [PurgedNode(nodes[0], now)] + Purged(nodes[1..], now)
  }

  function RepairedIn(c: Cache, node: string, volume: string, now: int): (Cache, bool) {
    if c.readOnly || c.rejected || !Registered(c, node, volume) then (c, false)
    else if !c.nodes[NodeIndex(c.nodes, node)].volumes[VolumeIndex(VolumesOf(c.nodes, node), volume)].committable
    then (c, false)
    else if AnyYoung(c.nodes, now) then (c, false)
    else
      var purged := c.(nodes := Purged(c.nodes, now));
      if !Registered(purged, node, volume) then (purged, false)
      else
        var i := NodeIndex(purged.nodes, node);
        var j := VolumeIndex(purged.nodes[i].volumes, volume);
        (purged.(nodes := Locked(purged.nodes, i, j, now)), true)
  }

  function Repaired(op: Op, c: Cache, now: int): (Cache, Answer) {
    if op.PrepareCommit? then
      var (c', commit) := RepairedIn(c, op.node, op.volume, now);
      (c', Commit(commit))
    else Written(op, c, now)
  }

  // ---------------------------------------------------------------- the lock of a volume

  function LockIn(volumes: seq<Volume>, volume: string): Option<int> {
    if volumes == [] then None
    else if volumes[0].name == volume then volumes[0].lock
    else LockIn(volumes[1..], volume)
  }

  lemma {:induction false} LockInAt(volumes: seq<Volume>, volume: string)
    ensures var j := VolumeIndex(volumes, volume);
            LockIn(volumes, volume) == if j < |volumes| then volumes[j].lock else None
  {
    if volumes != [] && volumes[0].name != volume {
      LockInAt(volumes[1..], volume);
    }
  }

  function LockOf(c: Cache, node: string, volume: string): Option<int> {
    LockIn(VolumesOf(c.nodes, node), volume)
  }

  lemma {:induction false} LockInOthers(volumes: seq<Volume>, removed: string, volume: string)
    ensures LockIn(WithoutVolume(volumes, removed), volume) ==
              if removed == volume then None else LockIn(volumes, volume)
  {
    if volumes != [] {
      LockInOthers(volumes[1..], removed, volume);
      var rest := WithoutVolume(volumes[1..], removed);
      if volumes[0].name == removed {
        assert WithoutVolume(volumes, removed) == rest;
      } else {
        assert WithoutVolume(volumes, removed) == [volumes[0]] + rest;
        assert ([volumes[0]] + rest)[1..] == rest;
      }
    }
  }

  lemma {:induction false} LockInMore(volumes: seq<Volume>, v: Volume, volume: string)
    requires v.lock.None?
    ensures LockIn(volumes + [v], volume) == LockIn(volumes, volume)
  {
    if volumes != [] {
      LockInMore(volumes[1..], v, volume);
      assert (volumes + [v])[1..] == volumes[1..] + [v];
    }
  }

  lemma RegisterKeepsLocks(c: Cache, op: Op, now: int, n: string, v: string)
    requires op.Register?
    ensures LockOf(Written(op, c, now).0, n, v) == LockOf(c, n, v)
  {
    var c' := Written(op, c, now).0;
    OthersAt(c.nodes, c'.nodes, NodeIndex(c.nodes, op.node), n, op.node);
    if n == op.node && !Registered(c, op.node, op.volume) {
      var volumes := VolumesOf(c.nodes, n);
      var more := VolumesOf(c'.nodes, n);
      assert more == volumes + [more[|volumes|]];
      LockInMore(volumes, more[|volumes|], v);
    }
  }

  lemma UnregisterDropsLock(c: Cache, op: Op, now: int, n: string, v: string)
    requires op.Unregister?
    ensures LockOf(Written(op, c, now).0, n, v) ==
              if n == op.node && v == op.volume then None else LockOf(c, n, v)
  {
    var c' := Written(op, c, now).0;
    OthersAt(c.nodes, c'.nodes, NodeIndex(c.nodes, op.node), n, op.node);
    if n == op.node {
      LockInOthers(VolumesOf(c.nodes, n), op.volume, v);
    }
  }

  lemma {:induction false} PurgedAt(nodes: seq<Node>, now: int, i: nat)
    requires i < |nodes|
    ensures Purged(nodes, now)[i] == PurgedNode(nodes[i], now)
  {
    if i > 0 {
      PurgedAt(nodes[1..], now, i - 1);
    }
  }

  lemma {:induction false} UnexpiredMembers(volumes: seq<Volume>, now: int)
    ensures forall v :: v in Unexpired(volumes, now) <==> v in volumes && !Expired(v, now)
  {
    if volumes != [] {
      UnexpiredMembers(volumes[1..], now);
      assert volumes == [volumes[0]] + volumes[1..];
    }
  }

  lemma {:induction false} LastExpiredIff(volumes: seq<Volume>, now: int)
    ensures LastExpired(volumes, now).None? <==> forall v | v in volumes :: !Expired(v, now)
  {
    if volumes != [] {
      var shorter, last := volumes[..|volumes| - 1], volumes[|volumes| - 1];
      LastExpiredIff(shorter, now);
      assert volumes == shorter + [last];
    }
  }

  /** Without a young lock, purging leaves no lock at all. */
  lemma PurgedIsUnlocked(nodes: seq<Node>, now: int)
    requires !AnyYoung(nodes, now)
    ensures forall i, v | 0 <= i < |nodes| && v in Purged(nodes, now)[i].volumes :: v.lock.None?
  {
    forall i, v | 0 <= i < |nodes| && v in Purged(nodes, now)[i].volumes ensures v.lock.None? {
      PurgedAt(nodes, now, i);
      LastExpiredIff(nodes[i].volumes, now);
      UnexpiredMembers(nodes[i].volumes, now);
      assert v in nodes[i].volumes && !Young(v, now);
    }
  }

  /** The request gets as far as dropping timed-out locks. */
  predicate Purges(c: Cache, node: string, volume: string, now: int) {
    !c.readOnly && !c.rejected && Registered(c, node, volume)
    && c.nodes[NodeIndex(c.nodes, node)].volumes[VolumeIndex(VolumesOf(c.nodes, node), volume)].committable
    && !AnyYoung(c.nodes, now)
  }

  /** A granted lock is the only one; a refusal keeps all locks, or drops them all as timed out. */
  lemma RepairedLocks(c: Cache, node: string, volume: string, now: int, n: string, v: string)
    ensures var (c', granted) := RepairedIn(c, node, volume, now);
            if Purges(c, node, volume, now) then
              (LockOf(c', n, v) == if granted && n == node && v == volume then Some(now) else None)
              && (LockOf(c, n, v).Some? ==> LockOf(c, n, v).value + COMMIT_TIMEOUT < now)
            else
              c' == c && !granted
  {
    if Purges(c, node, volume, now) {
      var (c', granted) := RepairedIn(c, node, volume, now);
      PurgedIsUnlocked(c.nodes, now);
      var purged := Purged(c.nodes, now);
      LockInAt(VolumesOf(c.nodes, n), v);
      var i := NodeIndex(c.nodes, n);
      if i < |c.nodes| {
        var j := VolumeIndex(c.nodes[i].volumes, v);
        assert j < |c.nodes[i].volumes| ==> !Young(c.nodes[i].volumes[j], now);
      }
      UnlockedEverywhere(purged, n, v);
      if granted {
        LockedOnly(purged, node, volume, now, n, v);
      }
    }
  }

  lemma UnlockedEverywhere(nodes: seq<Node>, n: string, v: string)
    requires forall i, w | 0 <= i < |nodes| && w in nodes[i].volumes :: w.lock.None?
    ensures LockIn(VolumesOf(nodes, n), v) == None
  {
    LockInAt(VolumesOf(nodes, n), v);
  }

  lemma LockedOnly(nodes: seq<Node>, node: string, volume: string, now: int, n: string, v: string)
    requires NodeIndex(nodes, node) < |nodes|
    requires VolumeIndex(VolumesOf(nodes, node), volume) < |VolumesOf(nodes, node)|
    requires LockIn(VolumesOf(nodes, n), v) == None
    ensures var nodes' := Locked(nodes, NodeIndex(nodes, node), VolumeIndex(VolumesOf(nodes, node), volume), now);
            LockIn(VolumesOf(nodes', n), v) == if n == node && v == volume then Some(now) else None
  {
    var i := NodeIndex(nodes, node);
    var j := VolumeIndex(nodes[i].volumes, volume);
    var nodes' := Locked(nodes, i, j, now);
    OthersAt(nodes, nodes', i, n, node);
    if n == node {
      LockInLocked(nodes[i].volumes, j, now, v);
    }
  }

  lemma LockInLocked(volumes: seq<Volume>, j: nat, now: int, v: string)
    requires j < |volumes| && j == VolumeIndex(volumes, volumes[j].name)
    ensures LockIn(volumes[j := volumes[j].(lock := Some(now))], v) ==
              if v == volumes[j].name then Some(now) else LockIn(volumes, v)
  {
    var locked := volumes[j := volumes[j].(lock := Some(now))];
    var a, b := VolumeIndex(volumes, v), VolumeIndex(locked, v);
    LockInAt(volumes, v);
    LockInAt(locked, v);
    assert forall k | 0 <= k < |volumes| :: locked[k].name == volumes[k].name;
  }

  // ---------------------------------------------------------------- exclusion

  /** Of any two locked entries of the volume lists, both are the same entry. */
  ghost predicate AtMostOneLock(c: Cache) {
    forall i, j, k, l | 0 <= i < |c.nodes| && 0 <= k < |c.nodes|
                        && 0 <= j < |c.nodes[i].volumes| && 0 <= l < |c.nodes[k].volumes|
                        && c.nodes[i].volumes[j].lock.Some? && c.nodes[k].volumes[l].lock.Some? ::
      i == k && j == l
  }

  ghost predicate OneLockByName(c: Cache) {
    forall n, v, n', v' | LockOf(c, n, v).Some? && LockOf(c, n', v').Some? :: n == n' && v == v'
  }

  /** An update keeps the lock of a volume, unless it unregisters it, grants it or finds it too old. */
  lemma EffectOnLock(c: Cache, e: Event, n: string, v: string)
    requires e.Applied?
    ensures var after := LockOf(Repaired(e.op, c, e.at).0, n, v);
            after == LockOf(c, n, v)
            || (after.None? && e.op.Unregister? && e.op.node == n && e.op.volume == v)
            || (e.op.PrepareCommit? && Purges(c, e.op.node, e.op.volume, e.at)
                && (LockOf(c, n, v).Some? ==> LockOf(c, n, v).value + COMMIT_TIMEOUT < e.at)
                && (after.Some? ==> n == e.op.node && v == e.op.volume))
  {
    match e.op
    case Register(_, _, _, _) => RegisterKeepsLocks(c, e.op, e.at, n, v);
    case Unregister(_, _, _) => UnregisterDropsLock(c, e.op, e.at, n, v);
    case PrepareCommit(node, volume) => RepairedLocks(c, node, volume, e.at, n, v);
  }

  lemma EffectKeepsOneLock(stored: Option<Cache>, e: Event)
    requires stored.Some? ==> OneLockByName(stored.value)
    ensures var after := Effect(Repaired, stored, e);
            after.Some? ==> OneLockByName(after.value)
  {
    var after := Effect(Repaired, stored, e);
    if after.Some? && e.Applied? {
      hide Repaired, LockOf;
      var c, c' := stored.value, after.value;
      forall n, v, n', v' | LockOf(c', n, v).Some? && LockOf(c', n', v').Some?
        ensures n == n' && v == v'
      {
        if e.op.PrepareCommit? && Purges(c, e.op.node, e.op.volume, e.at) {
          assert c' == RepairedIn(c, e.op.node, e.op.volume, e.at).0 by {
            RepairedPrepares(c, e);
          }
          RepairedLocks(c, e.op.node, e.op.volume, e.at, n, v);
          RepairedLocks(c, e.op.node, e.op.volume, e.at, n', v');
        } else {
          EffectOnLock(c, e, n, v);
          EffectOnLock(c, e, n', v');
        }
      }
    } else if after.Some? && e.Edited? {
      forall n, v ensures LockOf(after.value, n, v) == LockOf(stored.value, n, v) {
      }
    }
  }

  lemma RepairedPrepares(c: Cache, e: Event)
    requires e.Applied? && e.op.PrepareCommit?
    ensures Repaired(e.op, c, e.at).0 == RepairedIn(c, e.op.node, e.op.volume, e.at).0
  {
  }

  // ---------------------------------------------------------------- unique names

  /** Replacing one node of a list, or adding it, keeps names unique. */
  lemma UniqueReplaced(nodes: seq<Node>, nodes': seq<Node>, node: string)
    requires UniqueNames(nodes)
    requires var i := NodeIndex(nodes, node);
             i < |nodes'| && |nodes'| == (if i < |nodes| then |nodes| else |nodes| + 1)
             && nodes'[i].name == node && UniqueVolumes(nodes'[i].volumes)
             && forall j | 0 <= j < |nodes'| && j != i :: nodes'[j] == nodes[j]
    ensures UniqueNames(nodes')
  {
  }

  lemma UniqueAt(nodes: seq<Node>, node: string)
    requires UniqueNames(nodes)
    ensures UniqueVolumes(VolumesOf(nodes, node))
  {
  }

  lemma RegisterKeepsNames(c: Cache, op: Op, now: int)
    requires UniqueNames(c.nodes) && op.Register?
    ensures UniqueNames(Written(op, c, now).0.nodes)
  {
    UniqueAt(c.nodes, op.node);
    UniqueReplaced(c.nodes, Written(op, c, now).0.nodes, op.node);
  }

  lemma UnregisterKeepsNames(c: Cache, op: Op, now: int)
    requires UniqueNames(c.nodes) && op.Unregister?
    ensures UniqueNames(Written(op, c, now).0.nodes)
  {
    UniqueAt(c.nodes, op.node);
    WithoutVolumeMembers(VolumesOf(c.nodes, op.node), op.volume);
    UniqueReplaced(c.nodes, Written(op, c, now).0.nodes, op.node);
  }

  lemma {:induction false} UnexpiredUnique(volumes: seq<Volume>, now: int)
    requires UniqueVolumes(volumes)
    ensures UniqueVolumes(Unexpired(volumes, now))
  {
    if volumes != [] {
      UnexpiredUnique(volumes[1..], now);
      UnexpiredMembers(volumes[1..], now);
      var rest := Unexpired(volumes[1..], now);
      forall i | 0 <= i < |rest| ensures rest[i].name != volumes[0].name {
        assert rest[i] in volumes[1..];
      }
    }
  }

  lemma PurgedKeepsNames(nodes: seq<Node>, now: int)
    requires UniqueNames(nodes)
    ensures UniqueNames(Purged(nodes, now))
  {
    forall i | 0 <= i < |nodes|
      ensures Purged(nodes, now)[i].name == nodes[i].name && UniqueVolumes(Purged(nodes, now)[i].volumes)
    {
      PurgedAt(nodes, now, i);
      UnexpiredUnique(nodes[i].volumes, now);
    }
  }

  lemma RepairedKeepsNames(c: Cache, node: string, volume: string, now: int)
    requires UniqueNames(c.nodes)
    ensures UniqueNames(RepairedIn(c, node, volume, now).0.nodes)
  {
    PurgedKeepsNames(c.nodes, now);
  }

  lemma EffectKeepsNames(stored: Option<Cache>, e: Event)
    requires stored.Some? ==> UniqueNames(stored.value.nodes)
    ensures var after := Effect(Repaired, stored, e);
            after.Some? ==> UniqueNames(after.value.nodes)
  {
    hide UniqueNames;
    if e.Applied? && stored.Some? {
      match e.op
      case Register(_, _, _, _) => RegisterKeepsNames(stored.value, e.op, e.at);
      case Unregister(_, _, _) => UnregisterKeepsNames(stored.value, e.op, e.at);
      case PrepareCommit(node, volume) => RepairedKeepsNames(stored.value, node, volume, e.at);
    } else if e.Created? {
      assert UniqueNames(NEW_CACHE.nodes) by {
        EmptyIsUnique();
      }
    }
  }

  lemma EmptyIsUnique()
    ensures UniqueNames([])
  {
  }

  /** With unique names, an entry of a list is what its names find. */
  lemma LockAtEntry(c: Cache, i: nat, j: nat)
    requires UniqueNames(c.nodes) && i < |c.nodes| && j < |c.nodes[i].volumes|
    ensures LockOf(c, c.nodes[i].name, c.nodes[i].volumes[j].name) == c.nodes[i].volumes[j].lock
  {
    var node := c.nodes[i];
    assert NodeIndex(c.nodes, node.name) == i;
    assert VolumeIndex(node.volumes, node.volumes[j].name) == j;
    LockInAt(node.volumes, node.volumes[j].name);
  }

  lemma NamedIsListed(c: Cache)
    requires UniqueNames(c.nodes) && OneLockByName(c)
    ensures AtMostOneLock(c)
  {
    forall i, j, k, l | 0 <= i < |c.nodes| && 0 <= k < |c.nodes|
                        && 0 <= j < |c.nodes[i].volumes| && 0 <= l < |c.nodes[k].volumes|
                        && c.nodes[i].volumes[j].lock.Some? && c.nodes[k].volumes[l].lock.Some?
      ensures i == k && j == l
    {
      LockAtEntry(c, i, j);
      LockAtEntry(c, k, l);
    }
  }

  lemma {:induction false} OneNamedLock(log: seq<Event>)
    ensures var stored := Replay(Repaired, log);
            stored.Some? ==> UniqueNames(stored.value.nodes) && OneLockByName(stored.value)
  {
    if log != [] {
      OneNamedLock(log[..|log| - 1]);
      EffectKeepsNames(Replay(Repaired, log[..|log| - 1]), log[|log| - 1]);
      EffectKeepsOneLock(Replay(Repaired, log[..|log| - 1]), log[|log| - 1]);
    }
  }

  /** In every run, at most one entry of the cache's volume lists, over all nodes, holds a lock of any age. */
  lemma OneLock(log: seq<Event>)
    ensures var stored := Replay(Repaired, log);
            stored.Some? ==> UniqueNames(stored.value.nodes) && AtMostOneLock(stored.value)
  {
    OneNamedLock(log);
    if Replay(Repaired, log).Some? {
      NamedIsListed(Replay(Repaired, log).value);
    }
  }

  /** The k-th event granted a commit to a volume. */
  ghost predicate Grants(log: seq<Event>, k: nat) {
    k < |log| && log[k].Applied? && log[k].op.PrepareCommit? && Replay(Repaired, log[..k]).Some?
    && RepairedIn(Replay(Repaired, log[..k]).value, log[k].op.node, log[k].op.volume, log[k].at).1
  }

  /** The event gives a lock up: the volume is unregistered, or the object goes. */
  predicate Releases(e: Event, node: string, volume: string) {
    e.Created? || e.Deleted?
    || (e.Applied? && e.op.Unregister? && e.op.node == node && e.op.volume == volume)
  }

  /** What an event that does not give the lock up makes of it. */
  lemma EffectOnGrant(c: Cache, e: Event, node: string, volume: string, at: int)
    requires LockOf(c, node, volume) == Some(at) && !Releases(e, node, volume)
    ensures var after := Effect(Repaired, Some(c), e);
            after.Some? && (LockOf(after.value, node, volume) == Some(at)
                            || (e.Applied? && at + COMMIT_TIMEOUT < e.at))
  {
    if e.Applied? {
      EffectOnLock(c, e, node, volume);
    } else {
      assert Effect(Repaired, Some(c), e).value.nodes == c.nodes;
    }
  }

  lemma EffectStays(c: Cache, e: Event, node: string, volume: string)
    requires !Releases(e, node, volume)
    ensures Effect(Repaired, Some(c), e).Some?
  {
  }

  lemma GrantIsStored(log: seq<Event>, k: nat)
    requires Grants(log, k)
    ensures Replay(Repaired, log[..k + 1]).Some?
    ensures LockOf(Replay(Repaired, log[..k + 1]).value, log[k].op.node, log[k].op.volume) == Some(log[k].at)
  {
    assert log[..k + 1] == log[..k] + [log[k]];
    Appended(Repaired, log[..k], log[k]);
    var op := log[k].op;
    RepairedLocks(Replay(Repaired, log[..k]).value, op.node, op.volume, log[k].at, op.node, op.volume);
  }

  ghost predicate FoundTooOld(log: seq<Event>, at: int, k: nat, l: nat) {
    exists i :: k < i < l <= |log| && log[i].Applied? && at + COMMIT_TIMEOUT < log[i].at
  }

  /** Until it is given up, a granted lock is stored, or was found timed out by a later event. */
  lemma {:induction false} GrantPersists(log: seq<Event>, k: nat, l: nat)
    requires Grants(log, k) && k < l <= |log|
    requires forall i | k < i < l :: !Releases(log[i], log[k].op.node, log[k].op.volume)
    ensures Replay(Repaired, log[..l]).Some?
    ensures LockOf(Replay(Repaired, log[..l]).value, log[k].op.node, log[k].op.volume) == Some(log[k].at)
            || FoundTooOld(log, log[k].at, k, l)
  {
    hide Effect, RepairedIn, Replay, LockOf, Repaired;
    var node, volume, at := log[k].op.node, log[k].op.volume, log[k].at;
    if l == k + 1 {
      GrantIsStored(log, k);
    } else {
      GrantPersists(log, k, l - 1);
      assert log[..l] == log[..l - 1] + [log[l - 1]];
      Appended(Repaired, log[..l - 1], log[l - 1]);
      var c := Replay(Repaired, log[..l - 1]).value;
      EffectStays(c, log[l - 1], node, volume);
      if LockOf(c, node, volume) == Some(at) {
        EffectOnGrant(c, log[l - 1], node, volume, at);
      }
    }
  }

  /**
    Exclusion: of two commits granted in a run, to any volumes on any nodes, the second was granted
    more than fifteen minutes after the first, unless the first volume was unregistered in between.
   */
  lemma GrantsExclude(steps: seq<Step>, k: nat, l: nat)
    requires var log := Run(Repaired, steps).log;
             k < l < |log| && Grants(log, k) && Grants(log, l) &&
             forall i | k < i < l :: !Releases(log[i], log[k].op.node, log[k].op.volume)
    ensures var log := Run(Repaired, steps).log;
            log[k].at + 900 < log[l].at
  {
    var log := Run(Repaired, steps).log;
    RunInv(Repaired, steps);
    GrantPersists(log, k, l);
    LaterGrant(log, k, l, Run(Repaired, steps).now);
  }

  lemma LaterGrant(log: seq<Event>, k: nat, l: nat, now: int)
    requires k < l < |log| && Grants(log, k) && Grants(log, l) && InOrder(log, now)
    requires LockOf(Replay(Repaired, log[..l]).value, log[k].op.node, log[k].op.volume) == Some(log[k].at)
             || FoundTooOld(log, log[k].at, k, l)
    ensures log[k].at + COMMIT_TIMEOUT < log[l].at
  {
    if !FoundTooOld(log, log[k].at, k, l) {
      var c := Replay(Repaired, log[..l]).value;
      RepairedLocks(c, log[l].op.node, log[l].op.volume, log[l].at, log[k].op.node, log[k].op.volume);
    }
  }
}
