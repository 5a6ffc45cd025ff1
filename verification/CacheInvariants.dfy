/** What every update keeps of a Cache status (internal/ksync/sync.go). */
module CacheInvariants {
  import opened Wrappers
  import opened CacheStatus

  ghost predicate UniqueVolumes(volumes: seq<Volume>) {
    forall i, j | 0 <= i < j < |volumes| :: volumes[i].name != volumes[j].name
  }

  ghost predicate UniqueNodes(nodes: seq<Node>) {
    forall i, j | 0 <= i < j < |nodes| :: nodes[i].name != nodes[j].name
  }

  ghost predicate UniqueNames(nodes: seq<Node>) {
    UniqueNodes(nodes) && forall i | 0 <= i < |nodes| :: UniqueVolumes(nodes[i].volumes)
  }

  /** No volume is newer than the counter. */
  ghost predicate Bounded(nodes: seq<Node>, generation: int) {
    forall i, v | 0 <= i < |nodes| && v in nodes[i].volumes :: v.generation <= generation
  }

  /** Two committable volumes of one generation are the same volume on the same node. */
  ghost predicate DistinctGenerations(nodes: seq<Node>) {
    forall i, k, v, w | 0 <= i < |nodes| && 0 <= k < |nodes|
                        && v in nodes[i].volumes && w in nodes[k].volumes
                        && v.committable && w.committable && v.generation == w.generation ::
      i == k && v == w
  }

  ghost predicate NoLocks(nodes: seq<Node>) {
    forall i, v | 0 <= i < |nodes| && v in nodes[i].volumes :: v.lock.None?
  }

  ghost predicate SoundNodes(nodes: seq<Node>, generation: int) {
    UniqueNames(nodes) && Bounded(nodes, generation) && DistinctGenerations(nodes) && NoLocks(nodes)
  }

  ghost predicate Sound(c: Cache) {
    SoundNodes(c.nodes, c.generation)
  }

  // ---------------------------------------------------------------- lists

  lemma {:induction false} WithoutVolumeMembers(volumes: seq<Volume>, name: string)
    ensures forall v :: v in WithoutVolume(volumes, name) <==> v in volumes && v.name != name
    ensures UniqueVolumes(volumes) ==> UniqueVolumes(WithoutVolume(volumes, name))
  {
    if volumes != [] {
      WithoutVolumeMembers(volumes[1..], name);
      assert volumes == [volumes[0]] + volumes[1..];
    }
  }

  lemma VolumeIndexFinds(volumes: seq<Volume>, name: string)
    ensures VolumeIndex(volumes, name) < |volumes| <==> exists v | v in volumes :: v.name == name
  {
  }

  /** Shrinking the volumes of one node keeps all that is asked of a status. */
  lemma ShrunkNode(nodes: seq<Node>, generation: int, i: nat, n: Node)
    requires SoundNodes(nodes, generation) && i < |nodes|
    requires n.name == nodes[i].name && UniqueVolumes(n.volumes)
    requires forall v | v in n.volumes :: v in nodes[i].volumes
    ensures SoundNodes(nodes[i := n], generation)
  {
  }

  /** So does a new node without volumes. */
  lemma NewNode(nodes: seq<Node>, generation: int, n: Node)
    requires SoundNodes(nodes, generation) && n.volumes == []
    requires forall i | 0 <= i < |nodes| :: nodes[i].name != n.name
    ensures SoundNodes(nodes + [n], generation)
  {
    var more := nodes + [n];
    assert forall i | 0 <= i < |more| :: (i < |nodes| && more[i] == nodes[i]) || more[i].volumes == [];
  }

  lemma UpsertedNode(nodes: seq<Node>, generation: int, name: string, now: int)
    requires SoundNodes(nodes, generation)
    ensures SoundNodes(Upserted(nodes, name, now), generation)
  {
    hide SoundNodes;
    var i := NodeIndex(nodes, name);
    if i < |nodes| {
      assert UniqueVolumes(nodes[i].volumes) by {
        SoundVolumes(nodes, generation, i);
      }
      ShrunkNode(nodes, generation, i, nodes[i].(lastUsed := now));
    } else {
      NewNode(nodes, generation, Node(name, now, [], None));
    }
  }

  lemma SoundVolumes(nodes: seq<Node>, generation: int, i: nat)
    requires SoundNodes(nodes, generation) && i < |nodes|
    ensures UniqueVolumes(nodes[i].volumes)
  {
  }

  /** A volume with a new generation and a new name joins a node. */
  lemma GrownNode(nodes: seq<Node>, generation: int, i: nat, v: Volume)
    requires SoundNodes(nodes, generation) && i < |nodes|
    requires forall w | w in nodes[i].volumes :: w.name != v.name
    requires v.lock.None? && v.generation == generation + (if v.committable then 1 else 0)
    ensures SoundNodes(nodes[i := nodes[i].(volumes := nodes[i].volumes + [v])], v.generation)
  {
    var more := nodes[i := nodes[i].(volumes := nodes[i].volumes + [v])];
    assert UniqueVolumes(more[i].volumes);
    forall a, w | 0 <= a < |more| && w in more[a].volumes
      ensures w in nodes[a].volumes || (a == i && w == v)
    {
    }
    assert Bounded(more, v.generation) && NoLocks(more) && UniqueNames(more);
    GrownDistinct(nodes, generation, more, i, v);
  }

  lemma GrownDistinct(nodes: seq<Node>, generation: int, more: seq<Node>, i: nat, v: Volume)
    requires |more| == |nodes| && Bounded(nodes, generation) && DistinctGenerations(nodes)
    requires v.committable ==> v.generation > generation
    requires forall a, w | 0 <= a < |more| && w in more[a].volumes :: w in nodes[a].volumes || (a == i && w == v)
    ensures DistinctGenerations(more)
  {
  }

  // ---------------------------------------------------------------- updates

  /** Only a volume that is new and may be committed moves the generation; a read-only cache keeps it. */
  predicate NewlyCommittable(c: Cache, node: string, volume: string, commit: bool) {
    commit && !c.readOnly && !Registered(c, node, volume)
  }

  lemma RegisterKeeps(c: Cache, node: string, volume: string, image: string, commit: bool, now: int)
    requires Sound(c)
    ensures var r := RegisterIn(c, node, volume, image, commit, now).0;
            Sound(r) && r.used == c.used + 1 && Registered(r, node, volume) &&
            r.generation == c.generation + (if NewlyCommittable(c, node, volume, commit) then 1 else 0)
  {
    hide SoundNodes;
    UpsertedNode(c.nodes, c.generation, node, now);
    var i := NodeIndex(c.nodes, node);
    var nodes := Upserted(c.nodes, node, now);
    var r := RegisterIn(c, node, volume, image, commit, now).0;
    var volumes := VolumesOf(c.nodes, node);
    assert nodes[i].volumes == volumes && r.nodes[i].name == node;
    OthersAt(c.nodes, r.nodes, i, node, node);
    if !Registered(c, node, volume) {
      var committable := commit && !c.readOnly;
      var v := Volume(volume, c.generation + (if committable then 1 else 0), now, committable, None);
      GrownNode(nodes, c.generation, i, v);
      assert r.nodes == nodes[i := nodes[i].(volumes := volumes + [v])];
      assert (volumes + [v])[|volumes|] == v;
    }
  }

  lemma UnregisterKeeps(c: Cache, node: string, volume: string, failure: Option<string>, now: int)
    requires Sound(c)
    ensures var r := UnregisterIn(c, node, volume, failure, now);
            var i := NodeIndex(r.nodes, node);
            Sound(r) && r.generation == c.generation && !Registered(r, node, volume) && i < |r.nodes| &&
            match failure
            case None => r.nodes[i].lastError == None
            case Some(message) => r.nodes[i].lastError.Some? && r.nodes[i].lastError.value.volume == volume
                                  && r.nodes[i].lastError.value.message == message
  {
    hide SoundNodes;
    UpsertedNode(c.nodes, c.generation, node, now);
    var i := NodeIndex(c.nodes, node);
    var nodes := Upserted(c.nodes, node, now);
    var r := UnregisterIn(c, node, volume, failure, now);
    assert r.nodes == nodes[i := r.nodes[i]];
    SoundVolumes(nodes, c.generation, i);
    WithoutVolumeMembers(nodes[i].volumes, volume);
    ShrunkNode(nodes, c.generation, i, r.nodes[i]);
    OthersAt(c.nodes, r.nodes, i, node, node);
    VolumeIndexFinds(r.nodes[i].volumes, volume);
  }

  /**
    What a registration stores: the image that is set or else the default, which it also answers; one more
    use; the node is touched; a volume that is new joins the node's list with all its fields.
   */
  lemma RegisterStores(c: Cache, node: string, volume: string, image: string, commit: bool, now: int)
    ensures var (r, answer) := RegisterIn(c, node, volume, image, commit, now);
            var i := NodeIndex(r.nodes, node);
            r.image == (if c.image == "" then image else c.image) && answer == r.image
            && r.used == c.used + 1 && r.readOnly == c.readOnly && r.rejected == c.rejected
            && i < |r.nodes| && r.nodes[i].lastUsed == now
            && VolumesOf(r.nodes, node) ==
                 VolumesOf(c.nodes, node)
                 + (if Registered(c, node, volume) then []
                    else [Volume(volume, r.generation, now, commit && !c.readOnly, None)])
            && r.generation == c.generation + (if NewlyCommittable(c, node, volume, commit) then 1 else 0)
  {
    var r := RegisterIn(c, node, volume, image, commit, now).0;
    OthersAt(c.nodes, r.nodes, NodeIndex(c.nodes, node), node, node);
  }

  /**
    What an unregistration stores: the volume and no other is gone from the node's list, the node is
    touched and carries the failure with the reported generation, or none; everything else stays.
   */
  lemma UnregisterStores(c: Cache, node: string, volume: string, failure: Option<string>, now: int, w: Volume)
    ensures var r := UnregisterIn(c, node, volume, failure, now);
            var i := NodeIndex(r.nodes, node);
            r == c.(nodes := r.nodes) && i < |r.nodes| && r.nodes[i].lastUsed == now
            && (w in VolumesOf(r.nodes, node) <==> w in VolumesOf(c.nodes, node) && w.name != volume)
            && r.nodes[i].lastError ==
                 match failure
                 case None => None
                 case Some(message) =>
                   Some(VolumeError(volume, ReportedGeneration(VolumesOf(c.nodes, node), volume), message, now))
  {
    var r := UnregisterIn(c, node, volume, failure, now);
    OthersAt(c.nodes, r.nodes, NodeIndex(c.nodes, node), node, node);
    WithoutVolumeMembers(VolumesOf(c.nodes, node), volume);
  }

  /** As written, the scan takes the asking volume itself for a running commit. */
  lemma NeverGranted(c: Cache, node: string, volume: string, now: int)
    requires NoLocks(c.nodes)
    ensures PrepareCommitIn(c, node, volume, now) == (c, false)
  {
  }

  ghost predicate AllCommitting(nodes: seq<Node>, now: int) {
    forall i, v | 0 <= i < |nodes| && v in nodes[i].volumes :: !StopsScan(v, now)
  }

  lemma ScanIff(nodes: seq<Node>, now: int)
    ensures Scan(nodes, now).0 <==> !AllCommitting(nodes, now)
  {
    var i := StopAt(nodes, now);
    if i < |nodes| {
      var j := StopIn(nodes[i].volumes, now);
      assert nodes[i].volumes[j] in nodes[i].volumes;
    } else {
      forall k, v | 0 <= k < |nodes| && v in nodes[k].volumes ensures !StopsScan(v, now) {
        assert StopIn(nodes[k].volumes, now) == |nodes[k].volumes|;
      }
    }
  }

  /**
    What the scan as written amounts to, in any status: a commit is granted iff the volume may be
    committed and every volume of the cache, the asking one included, is in the middle of a commit.
   */
  lemma GrantedIff(c: Cache, node: string, volume: string, now: int)
    ensures PrepareCommitIn(c, node, volume, now).1 <==>
              !c.readOnly && !c.rejected && Registered(c, node, volume)
              && VolumesOf(c.nodes, node)[VolumeIndex(VolumesOf(c.nodes, node), volume)].committable
              && AllCommitting(c.nodes, now)
  {
    ScanIff(c.nodes, now);
  }

  /** A granted commit locks the asking volume at that time, and changes nothing else. */
  lemma GrantLocks(c: Cache, node: string, volume: string, now: int)
    requires PrepareCommitIn(c, node, volume, now).1
    ensures var r := PrepareCommitIn(c, node, volume, now).0;
            var i, j := NodeIndex(c.nodes, node), VolumeIndex(VolumesOf(c.nodes, node), volume);
            r == c.(nodes := r.nodes) && i < |c.nodes| == |r.nodes| && j < |c.nodes[i].volumes|
            && (forall k | 0 <= k < |c.nodes| && k != i :: r.nodes[k] == c.nodes[k])
            && r.nodes[i] == c.nodes[i].(volumes := r.nodes[i].volumes)
            && r.nodes[i].volumes == c.nodes[i].volumes[j := c.nodes[i].volumes[j].(lock := Some(now))]
  {
  }

  /** The volume has been committing for at most fifteen minutes. */
  predicate Committing(v: Volume, now: int) {
    v.lock.Some? && now <= v.lock.value + 900
  }

  /**
    Of the volumes in list order, the first that is not committing decides, whoever asked.  If its commit
    is older than fifteen minutes, it is dropped with its volume, and its node carries the error.
   */
  lemma TimedOutIsDropped(c: Cache, node: string, volume: string, now: int, i: nat, j: nat)
    requires UniqueNames(c.nodes) && !c.readOnly && !c.rejected && Registered(c, node, volume)
    requires VolumesOf(c.nodes, node)[VolumeIndex(VolumesOf(c.nodes, node), volume)].committable
    requires i < |c.nodes| && j < |c.nodes[i].volumes| && c.nodes[i].volumes[j].lock.Some?
             && c.nodes[i].volumes[j].lock.value + 900 < now
    requires forall v | v in c.nodes[i].volumes[..j] :: Committing(v, now)
    requires forall k, v | 0 <= k < i && v in c.nodes[k].volumes :: Committing(v, now)
    ensures var r := PrepareCommitIn(c, node, volume, now);
            var v := c.nodes[i].volumes[j];
            !r.1 && |r.0.nodes| == |c.nodes| && !Registered(r.0, c.nodes[i].name, v.name)
            && r.0.nodes[i].lastError == Some(VolumeError(v.name, Some(v.generation), "commit timed out", now))
  {
    var n := c.nodes[i];
    var v := n.volumes[j];
    StopsFirst(c.nodes, now, i, j);
    var failed := n.(lastError := Some(VolumeError(v.name, Some(v.generation), "commit timed out", now)),
                     volumes := n.volumes[j := v.(lock := None)]);
    var nodes := c.nodes[i := failed];
    IndexOf(nodes, i);
    var r := RemovedFrom(nodes, n.name, v.name, now);
    IndexOf(r, i);
    WithoutVolumeMembers(failed.volumes, v.name);
    VolumeIndexFinds(r[i].volumes, v.name);
  }

  lemma IndexOf(nodes: seq<Node>, i: nat)
    requires i < |nodes| && forall k | 0 <= k < i :: nodes[k].name != nodes[i].name
    ensures NodeIndex(nodes, nodes[i].name) == i
  {
    var k := NodeIndex(nodes, nodes[i].name);
    assert k <= i;
  }

  lemma StopsFirst(nodes: seq<Node>, now: int, i: nat, j: nat)
    requires i < |nodes| && j < |nodes[i].volumes| && !Committing(nodes[i].volumes[j], now)
    requires forall v | v in nodes[i].volumes[..j] :: Committing(v, now)
    requires forall k, v | 0 <= k < i && v in nodes[k].volumes :: Committing(v, now)
    ensures StopAt(nodes, now) == i && StopIn(nodes[i].volumes, now) == j
  {
    forall k | 0 <= k < j ensures !StopsScan(nodes[i].volumes[k], now) {
      assert nodes[i].volumes[..j][k] in nodes[i].volumes[..j];
    }
    forall k | 0 <= k < i ensures StopIn(nodes[k].volumes, now) == |nodes[k].volumes| {
      forall v | v in nodes[k].volumes ensures !StopsScan(v, now) {
        assert Committing(v, now);
      }
    }
  }

  /** What is registered elsewhere stays as it is. */
  lemma RegisterKeepsOthers(
    c: Cache, node: string, volume: string, image: string, commit: bool, now: int, n: string, v: string)
    requires node != n || volume != v
    ensures Registered(RegisterIn(c, node, volume, image, commit, now).0, n, v) <==> Registered(c, n, v)
  {
    var r := RegisterIn(c, node, volume, image, commit, now).0;
    OthersAt(c.nodes, r.nodes, NodeIndex(c.nodes, node), n, node);
    if n == node {
      var volumes := VolumesOf(c.nodes, node);
      var more := VolumesOf(r.nodes, node);
      assert more == volumes || (more == volumes + [more[|volumes|]] && more[|volumes|].name == volume);
      VolumeIndexFinds(volumes, v);
      VolumeIndexFinds(VolumesOf(r.nodes, node), v);
    }
  }

  lemma UnregisterKeepsOthers(
    c: Cache, node: string, volume: string, failure: Option<string>, now: int, n: string, v: string)
    requires node != n || volume != v
    ensures Registered(UnregisterIn(c, node, volume, failure, now), n, v) <==> Registered(c, n, v)
  {
    var r := UnregisterIn(c, node, volume, failure, now);
    OthersAt(c.nodes, r.nodes, NodeIndex(c.nodes, node), n, node);
    if n == node {
      WithoutVolumeMembers(VolumesOf(c.nodes, node), volume);
      VolumeIndexFinds(VolumesOf(c.nodes, node), v);
      VolumeIndexFinds(VolumesOf(r.nodes, node), v);
    }
  }

  /** Replacing one node of a list, or adding it, changes nothing about the others. */
  lemma OthersAt(nodes: seq<Node>, nodes': seq<Node>, i: nat, n: string, node: string)
    requires i == NodeIndex(nodes, node) < |nodes'|
    requires |nodes'| == if i < |nodes| then |nodes| else |nodes| + 1
    requires forall j | 0 <= j < |nodes'| && j != i :: nodes'[j] == nodes[j]
    requires nodes'[i].name == node
    ensures NodeIndex(nodes', node) == i && VolumesOf(nodes', node) == nodes'[i].volumes
    ensures n != node ==> VolumesOf(nodes', n) == VolumesOf(nodes, n)
  {
  }

  /**
    The generation recorded with a failed unmount should be the one of the removed volume.
    It is so only if another volume stays and the last of the list has that generation.
   */
  lemma ReportIsRightIff(volumes: seq<Volume>, j: nat)
    requires UniqueVolumes(volumes) && j < |volumes|
    ensures ReportedGeneration(volumes, volumes[j].name) == Some(volumes[j].generation) <==>
              |volumes| >= 2 && volumes[|volumes| - 1].generation == volumes[j].generation
  {
    var name := volumes[j].name;
    WithoutVolumeMembers(volumes, name);
    if |volumes| >= 2 {
      var k := if j == 0 then 1 else 0;
      assert volumes[k] in WithoutVolume(volumes, name);
    } else {
      assert WithoutVolume(volumes, name) == [];
    }
  }
}
