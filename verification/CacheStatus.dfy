/**
  The status of a Cache resource and the modify functions that the nodes apply
  to it (internal/ksync/sync.go).  The class updates the status in place, as the
  source does; the functions say what each update means.
 */
module CacheStatus {
  import opened Wrappers

  datatype VolumeError = VolumeError(
    volume: string, generation: Option<int>, message: string, happened: int)

  /** `lock` is the commit start time. */
  datatype Volume = Volume(
    name: string, generation: int, created: int, committable: bool, lock: Option<int>)

  datatype Node = Node(
    name: string, lastUsed: int, volumes: seq<Volume>, lastError: Option<VolumeError>)

  /** The parts of a Cache that these updates read or write. */
  datatype Cache = Cache(
    readOnly: bool, rejected: bool, image: string, generation: int, used: int, nodes: seq<Node>)

  const NEW_CACHE := Cache(false, false, "", 0, 0, [])

  /** Seconds after which a commit lock no longer counts. */
  const COMMIT_TIMEOUT := 15 * 60

  // ---------------------------------------------------------------- what the updates mean

  function NodeIndex(nodes: seq<Node>, name: string): (i: nat)
    ensures i <= |nodes| && (i < |nodes| ==> nodes[i].name == name)
    ensures forall j | 0 <= j < i :: nodes[j].name != name
  {
    if nodes == [] || nodes[0].name == name then 0 else 1 + NodeIndex(nodes[1..], name)
  }

  function VolumeIndex(volumes: seq<Volume>, name: string): (i: nat)
    ensures i <= |volumes| && (i < |volumes| ==> volumes[i].name == name)
    ensures forall j | 0 <= j < i :: volumes[j].name != name
  {
    if volumes == [] || volumes[0].name == name then 0 else 1 + VolumeIndex(volumes[1..], name)
  }

  function Upserted(nodes: seq<Node>, name: string, now: int): (r: seq<Node>)
    ensures NodeIndex(nodes, name) < |r| && |nodes| <= |r|
  {
    var i := NodeIndex(nodes, name);
    if i < |nodes| then nodes[i := nodes[i].(lastUsed := now)]
    else nodes + [Node(name, now, [], None)]
  }

  function VolumesOf(nodes: seq<Node>, name: string): seq<Volume> {
    var i := NodeIndex(nodes, name);
    if i < |nodes| then nodes[i].volumes else []
  }

  function WithoutVolume(volumes: seq<Volume>, name: string): seq<Volume> {
    if volumes == [] then []
    else (if volumes[0].name == name then [] else [volumes[0]]) + WithoutVolume(volumes[1..], name)
  }

  lemma {:induction false} WithoutVolumeLast(volumes: seq<Volume>, v: Volume, name: string)
    ensures WithoutVolume(volumes + [v], name) ==
              WithoutVolume(volumes, name) + (if v.name == name then [] else [v])
  {
    if volumes != [] {
      WithoutVolumeLast(volumes[1..], v, name);
      assert (volumes + [v])[1..] == volumes[1..] + [v];
    }
  }

  predicate Registered(c: Cache, node: string, volume: string) {
    var volumes := VolumesOf(c.nodes, node);
    VolumeIndex(volumes, volume) < |volumes|
  }

  function WithVolume(c: Cache, node: string, volume: string, commit: bool, now: int): Cache {
    var i := NodeIndex(c.nodes, node);
    var nodes := Upserted(c.nodes, node, now);
    if Registered(c, node, volume) then c.(nodes := nodes)
    else
      var committable := commit && !c.readOnly;
      var generation := if committable then c.generation + 1 else c.generation;
      var added := Volume(volume, generation, now, committable, None);
      c.(nodes := nodes[i := nodes[i].(volumes := nodes[i].volumes + [added])], generation := generation)
  }

  function RemovedFrom(nodes: seq<Node>, node: string, volume: string, now: int): seq<Node> {
    var i := NodeIndex(nodes, node);
    var more := Upserted(nodes, node, now);
    more[i := more[i].(volumes := WithoutVolume(more[i].volumes, volume))]
  }

  /**
    The generation that an unregistration reports.  The source takes the address of its loop
    variable whenever it keeps a volume, so the last volume of the list decides, kept or not.
   */
  function ReportedGeneration(volumes: seq<Volume>, volume: string): Option<int> {
    if WithoutVolume(volumes, volume) == [] then None else Some(volumes[|volumes| - 1].generation)
  }

  function RegisterIn(c: Cache, node: string, volume: string, image: string, commit: bool, now: int): (Cache, string) {
    var chosen := if c.image == "" then image else c.image;
    (WithVolume(c.(image := chosen, used := c.used + 1), node, volume, commit, now), chosen)
  }

  function UnregisterIn(c: Cache, node: string, volume: string, failure: Option<string>, now: int): Cache {
    var i := NodeIndex(c.nodes, node);
    var nodes := RemovedFrom(c.nodes, node, volume, now);
    var reported := ReportedGeneration(VolumesOf(c.nodes, node), volume);
    var lastError := match failure
                     case Some(message) => Some(VolumeError(volume, reported, message, now))
                     case None => None;
    c.(nodes := nodes[i := nodes[i].(lastError := lastError)])
  }

  predicate Expired(v: Volume, now: int) {
    v.lock.Some? && v.lock.value + COMMIT_TIMEOUT < now
  }

  /** The test of the source's scan: it stops at a volume WITHOUT a running commit. */
  predicate StopsScan(v: Volume, now: int) {
    v.lock.None? || Expired(v, now)
  }

  /** The first volume of the list at which the scan stops. */
  function StopIn(volumes: seq<Volume>, now: int): (j: nat)
    ensures j <= |volumes| && (j < |volumes| ==> StopsScan(volumes[j], now))
    ensures forall k | 0 <= k < j :: !StopsScan(volumes[k], now)
  {
    if volumes == [] || StopsScan(volumes[0], now) then 0 else 1 + StopIn(volumes[1..], now)
  }

  /** The first node in which the scan stops. */
  function StopAt(nodes: seq<Node>, now: int): (i: nat)
    ensures i <= |nodes| && (i < |nodes| ==> StopIn(nodes[i].volumes, now) < |nodes[i].volumes|)
    ensures forall k | 0 <= k < i :: StopIn(nodes[k].volumes, now) == |nodes[k].volumes|
  {
    if nodes == [] || StopIn(nodes[0].volumes, now) < |nodes[0].volumes| then 0
    else 1 + StopAt(nodes[1..], now)
  }

  /** The nodes after the timed-out lock of volume `j` of node `i` was dropped with its volume. */
  function TimedOut(nodes: seq<Node>, i: nat, j: nat, now: int): seq<Node>
    requires i < |nodes| && j < |nodes[i].volumes|
  {
    var v := nodes[i].volumes[j];
    var failed := nodes[i].(
      lastError := Some(VolumeError(v.name, Some(v.generation), "commit timed out", now)),
      volumes := nodes[i].volumes[j := v.(lock := None)]);
    RemovedFrom(nodes[i := failed], nodes[i].name, v.name, now)
  }

  /** Whether a commit counts as in progress, and the nodes afterwards. */
  function Scan(nodes: seq<Node>, now: int): (bool, seq<Node>) {
    var i := StopAt(nodes, now);
    if i == |nodes| then (false, nodes)
    else
      var j := StopIn(nodes[i].volumes, now);
      (true, if nodes[i].volumes[j].lock.None? then nodes else TimedOut(nodes, i, j, now))
  }

  function Locked(nodes: seq<Node>, i: nat, j: nat, now: int): seq<Node>
    requires i < |nodes| && j < |nodes[i].volumes|
  {
    nodes[i := nodes[i].(volumes := nodes[i].volumes[j := nodes[i].volumes[j].(lock := Some(now))])]
  }

  function PrepareCommitIn(c: Cache, node: string, volume: string, now: int): (Cache, bool) {
    if c.readOnly || c.rejected || !Registered(c, node, volume) then (c, false)
    else
      var i := NodeIndex(c.nodes, node);
      var j := VolumeIndex(c.nodes[i].volumes, volume);
      if !c.nodes[i].volumes[j].committable then (c, false)
      else
        var (busy, nodes) := Scan(c.nodes, now);
        if busy then (c.(nodes := nodes), false) else (c.(nodes := Locked(c.nodes, i, j, now)), true)
  }

  // ---------------------------------------------------------------- the updates in place

  /** A Cache read from the API server, changed in place before it is written back. */
  class CacheObject {
    var readOnly: bool
    var rejected: bool
    var image: string
    var generation: int
    var used: int
    var nodes: seq<Node>

    function Value(): Cache
      reads this
    {
      Cache(readOnly, rejected, image, generation, used, nodes)
    }

    constructor (c: Cache)
      ensures Value() == c
    {
      readOnly, rejected, image := c.readOnly, c.rejected, c.image;
      generation, used, nodes := c.generation, c.used, c.nodes;
    }

    /** The node of that name, added if missing; `i` stands for the pointer the source returns. */
    method UpsertNode(name: string, now: int) returns (i: nat)
      modifies this`nodes
      ensures nodes == Upserted(old(nodes), name, now) && i == NodeIndex(old(nodes), name)
      ensures i < |nodes| && nodes[i].name == name && nodes[i].volumes == VolumesOf(old(nodes), name)
    {
      i := 0;
      while i < |nodes|
        invariant i <= |nodes| && nodes == old(nodes)
        invariant i <= NodeIndex(nodes, name)
      {
        if nodes[i].name == name {
          nodes := nodes[i := nodes[i].(lastUsed := now)];
          return;
        }
        i := i + 1;
      }
      nodes := nodes + [Node(name, now, [], None)];
    }

    method AddVolume(node: string, volume: string, commit: bool, now: int) returns (ok: bool)
      modifies this`nodes, this`generation
      ensures Value() == WithVolume(old(Value()), node, volume, commit, now)
      ensures ok <==> !Registered(old(Value()), node, volume)
    {
      ghost var volumes := VolumesOf(nodes, node);
      var i := UpsertNode(node, now);
      var k := 0;
      while k < |nodes[i].volumes|
        invariant k <= |nodes[i].volumes|
        invariant k <= VolumeIndex(nodes[i].volumes, volume)
      {
        if nodes[i].volumes[k].name == volume {
          return false;
        }
        k := k + 1;
      }
      var committable := commit && !readOnly;
      if committable {
        generation := generation + 1;
      }
      var added := Volume(volume, generation, now, committable, None);
      nodes := nodes[i := nodes[i].(volumes := nodes[i].volumes + [added])];
      return true;
    }

    method RemoveVolume(node: string, volume: string, now: int) returns (i: nat, reported: Option<int>)
      modifies this`nodes
      ensures nodes == RemovedFrom(old(nodes), node, volume, now) && i == NodeIndex(old(nodes), node)
      ensures i < |nodes| && reported == ReportedGeneration(VolumesOf(old(nodes), node), volume)
    {
      i := UpsertNode(node, now);
      var kept;
      kept, reported := KeepOthers(nodes[i].volumes, volume);
      nodes := nodes[i := nodes[i].(volumes := kept)];
    }

    /** The loop of RemoveVolume. */
    static method KeepOthers(volumes: seq<Volume>, volume: string)
      returns (kept: seq<Volume>, reported: Option<int>)
      ensures kept == WithoutVolume(volumes, volume)
      ensures reported == ReportedGeneration(volumes, volume)
    {
      kept := [];
      assert kept == WithoutVolume(volumes[..0], volume);
      hide WithoutVolume;
      // `points` is set once the address of the loop variable was taken, `last` is that variable.
      var points, last := false, 0;
      for k := 0 to |volumes|
        invariant kept == WithoutVolume(volumes[..k], volume)
        invariant points <==> kept != []
        invariant k > 0 ==> last == volumes[k - 1].generation
      {
        WithoutVolumeLast(volumes[..k], volumes[k], volume);
        assert volumes[..k + 1] == volumes[..k] + [volumes[k]];
        last := volumes[k].generation;
        if volumes[k].name != volume {
          kept := kept + [volumes[k]];
          points := true;
        }
      }
      assert volumes[..|volumes|] == volumes;
      reported := if points then Some(last) else None;
    }

    method FindVolume(node: string, volume: string) returns (r: Option<(nat, nat)>)
      ensures r.Some? <==> Registered(Value(), node, volume)
      ensures r.Some? ==> r.value.0 == NodeIndex(nodes, node) < |nodes|
                          && r.value.1 == VolumeIndex(nodes[r.value.0].volumes, volume) < |nodes[r.value.0].volumes|
    {
      for i := 0 to |nodes|
        invariant i <= NodeIndex(nodes, node)
      {
        if nodes[i].name == node {
          for j := 0 to |nodes[i].volumes|
            invariant j <= VolumeIndex(nodes[i].volumes, volume)
          {
            if nodes[i].volumes[j].name == volume {
              return Some((i, j));
            }
          }
          return None;
        }
      }
      return None;
    }

    /** The timed-out branch of CommitInProgress. */
    method DropTimedOut(i: nat, j: nat, now: int)
      requires i < |nodes| && j < |nodes[i].volumes|
      modifies this`nodes
      ensures nodes == TimedOut(old(nodes), i, j, now)
    {
      var v := nodes[i].volumes[j];
      var failure := VolumeError(v.name, Some(v.generation), "commit timed out", now);
      nodes := nodes[i := nodes[i].(lastError := Some(failure))];
      nodes := nodes[i := nodes[i].(volumes := nodes[i].volumes[j := v.(lock := None)])];
      assert nodes == old(nodes)[i := nodes[i]];
      var _, _ := RemoveVolume(nodes[i].name, v.name, now);
    }

    method CommitInProgress(now: int) returns (busy: bool)
      modifies this`nodes
      ensures (busy, nodes) == Scan(old(nodes), now)
    {
      for i := 0 to |nodes|
        invariant nodes == old(nodes) && i <= StopAt(nodes, now)
      {
        for j := 0 to |nodes[i].volumes|
          invariant nodes == old(nodes) && j <= StopIn(nodes[i].volumes, now)
        {
          var v := nodes[i].volumes[j];
          if v.lock.None? || v.lock.value + COMMIT_TIMEOUT < now {
            if v.lock.Some? {
              DropTimedOut(i, j, now);
            }
            return true;
          }
        }
      }
      return false;
    }

    /** The modify function of RegisterCacheVolume; the error of AddVolume is dropped. */
    method Register(node: string, volume: string, defaultImage: string, commit: bool, now: int)
      returns (chosen: string)
      modifies this
      ensures (Value(), chosen) == RegisterIn(old(Value()), node, volume, defaultImage, commit, now)
    {
      chosen := image;
      if chosen == "" {
        chosen := defaultImage;
        image := defaultImage;
      }
      used := used + 1;
      var _ := AddVolume(node, volume, commit, now);
    }

    /** The modify function of PrepareCommit. */
    method PrepareCommit(node: string, volume: string, now: int) returns (commit: bool)
      modifies this`nodes
      ensures (Value(), commit) == PrepareCommitIn(old(Value()), node, volume, now)
    {
      if readOnly || rejected {
        return false;
      }
      var found := FindVolume(node, volume);
      if found.None? {
        return false;
      }
      var (i, j) := found.value;
      commit := nodes[i].volumes[j].committable;
      if commit {
        var busy := CommitInProgress(now);
        commit := !busy;
      }
      if commit {
        nodes := Locked(nodes, i, j, now);
      }
    }

    /** The modify function of UnregisterCacheVolume. */
    method Unregister(node: string, volume: string, failure: Option<string>, now: int)
      modifies this`nodes
      ensures Value() == UnregisterIn(old(Value()), node, volume, failure, now)
    {
      var i, reported := RemoveVolume(node, volume, now);
      var lastError := None;
      if failure.Some? {
        lastError := Some(VolumeError(volume, reported, failure.value, now));
      }
      nodes := nodes[i := nodes[i].(lastError := lastError)];
    }
  }
}
