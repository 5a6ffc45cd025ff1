/** Provisioning gets somewhere: each reconcile waits for the Pod or comes closer to a volume. */
module ProvisioningProgress {
  import opened Wrappers
  import opened Lifecycle
  import opened LifecycleProofs

  /** A claim that should get a volume and is assigned to a node. */
  ghost predicate Provisionable(w: World) {
    Inv(w) && w.claim.Some? && !w.claim.value.deleting && !w.claim.value.bound && w.claim.value.selectedNode
    && w.claimStage.ClaimIdle?
  }

  /** The provisioner Pod works, failed, or is going after the volume was made. */
  ghost predicate Waiting(w: World) {
    w.provisioner.Some? &&
    (if w.volume.Some? then w.provisioner.value.terminating else !w.provisioner.value.phase.Succeeded?)
  }

  /** The provisioner Pod failed before there was a volume and is not being deleted. */
  predicate ProvisionerFailed(w: World) {
    w.volume.None? && w.provisioner == Some(Pod(Failed, false))
  }

  /** The steps left: add the finalizer, see an old Pod off, create one, make the volume, delete the Pod. */
  function Rank(w: World): nat
    requires w.claim.Some?
  {
    if FINALIZER !in w.claim.value.finalizers then 7
    else if w.volume.None? then
      if w.provisioner.None? then 5
      else if w.provisioner.value.terminating then 6
      else if w.provisioner.value.phase.Succeeded? then 3
      else 4
    else if w.provisioner.None? then 0
    else if w.provisioner.value.terminating then 1
    else 2
  }

  /** A whole reconcile of the claim in which every request succeeds. */
  function Reconciled(w: World): World {
    Next(Next(Next(Next(Next(w, ReconcileClaim(true)), GO), GO), GO), GO)
  }

  lemma ReconciledKeeps(w: World)
    requires Inv(w)
    ensures Inv(Reconciled(w))
  {
    hide Inv, Next;
    var w1 := Next(w, ReconcileClaim(true));
    NextKeeps(w, ReconcileClaim(true));
    var w2 := Next(w1, GO);
    NextKeeps(w1, GO);
    var w3 := Next(w2, GO);
    NextKeeps(w2, GO);
    NextKeeps(w3, GO);
    NextKeeps(Next(w3, GO), GO);
  }

  /** What the reconcile of a claim that holds our finalizer does, case by case. */
  lemma ReconciledCases(w: World)
    requires Provisionable(w) && FINALIZER in w.claim.value.finalizers
    ensures var bumped := w.version + 1;
            Reconciled(w) ==
              if w.volume.None? && w.provisioner.None? then
                w.(provisioner := Some(Pod(Running, false)))
              else if w.volume.None? && w.provisioner.value.phase.Succeeded? then
                w.(version := bumped, made := true, volume := Some(NewVolume(bumped, true)),
                   provisioner := Some(w.provisioner.value.(terminating := true)))
              else if w.volume.None? || w.provisioner.None? then w
              else w.(provisioner := Some(w.provisioner.value.(terminating := true)))
  {
    var c := w.claim.value;
    var w1 := Next(w, ReconcileClaim(true));
    assert w1 == w.(claimStage := CheckVolume(c));
    var w2 := Next(w1, GO);
    var w3 := Next(w2, GO);
    if w.volume.None? {
      assert w2 == w.(claimStage := Provision(c, Looking));
      if w.provisioner.None? {
        assert w3 == w.(claimStage := Provision(c, Starting));
      } else if w.provisioner.value.phase.Succeeded? {
        assert w3 == w.(claimStage := MakeVolume(c));
      } else {
        assert w3 == w;
      }
    } else {
      assert w2 == w.(claimStage := Provision(c, Stopping));
      if w.provisioner.None? {
        assert w3 == w;
      } else {
        assert w3 == w.(claimStage := Provision(c, Removing));
      }
    }
  }

  lemma FinalizerIsAdded(w: World)
    requires Provisionable(w) && FINALIZER !in w.claim.value.finalizers
    ensures var c, bumped := w.claim.value, w.version + 1;
            Reconciled(w) ==
              w.(version := bumped,
                 claim := Some(c.(version := bumped, finalizers := c.finalizers + [FINALIZER])))
  {
  }

  /** Each reconcile waits for the Pod and changes nothing, is done, or strictly lowers the rank. */
  lemma ReconcileProgresses(w: World)
    requires Provisionable(w)
    ensures var w' := Reconciled(w);
            Provisionable(w') && (ProvisionerFailed(w') ==> ProvisionerFailed(w)) &&
            if Waiting(w) || Rank(w) == 0 then w' == w else Rank(w') < Rank(w)
  {
    ReconciledKeeps(w);
    if FINALIZER in w.claim.value.finalizers {
      ReconciledCases(w);
    } else {
      FinalizerIsAdded(w);
    }
  }

  /** The Pod moves on: a running one succeeds, one that was deleted goes. */
  function PodMoves(w: World): World {
    Next(Next(w, ProvisionerEnds(true)), ProvisionerGone)
  }

  lemma PodProgresses(w: World)
    requires Provisionable(w)
    ensures var w' := PodMoves(w);
            Provisionable(w') && Rank(w') <= Rank(w) && (ProvisionerFailed(w') <==> ProvisionerFailed(w)) &&
            (ProvisionerFailed(w) ==> w' == w) &&
            (Waiting(w) && !ProvisionerFailed(w) ==> Rank(w') < Rank(w))
  {
    NextKeeps(w, ProvisionerEnds(true));
    NextKeeps(Next(w, ProvisionerEnds(true)), ProvisionerGone);
  }

  /** Reconciles and moves of the Pod in turn. */
  function Driven(w: World, n: nat): World
    decreases n
  {
    if n == 0 then w else Driven(PodMoves(Reconciled(w)), n - 1)
  }

  /** The volume is there and the provisioner Pod is gone. */
  predicate Ended(w: World) {
    w.volume.Some? && w.provisioner.None?
  }

  lemma RankZeroIsTheEnd(w: World)
    requires Provisionable(w)
    ensures Ended(w) <==> Rank(w) == 0
  {
  }

  lemma {:induction false} ProvisioningEnds(w: World, n: nat)
    requires Provisionable(w) && n >= Rank(w) && !ProvisionerFailed(w)
    ensures exists m: nat | m <= n :: Ended(Driven(w, m))
    decreases n
  {
    hide Provisionable, Rank, Reconciled, PodMoves, Ended, Waiting, ProvisionerFailed;
    RankZeroIsTheEnd(w);
    ClaimIsThere(w);
    if Rank(w) == 0 {
      assert Ended(Driven(w, 0));
    } else {
      ReconcileProgresses(w);
      ClaimIsThere(Reconciled(w));
      PodProgresses(Reconciled(w));
      var w2 := PodMoves(Reconciled(w));
      ProvisioningEnds(w2, n - 1);
      var m: nat :| m <= n - 1 && Ended(Driven(w2, m));
      assert Driven(w, m + 1) == Driven(w2, m);
    }
  }

  lemma ClaimIsThere(w: World)
    requires Provisionable(w)
    ensures w.claim.Some?
  {
  }

  lemma {:induction false} FailedPodBlocks(w: World, n: nat)
    requires Provisionable(w) && ProvisionerFailed(w)
    ensures Driven(w, n) == w
    decreases n
  {
    if n > 0 {
      ReconcileProgresses(w);
      PodProgresses(w);
      FailedPodBlocks(w, n - 1);
    }
  }

  /**
    When all requests succeed and neither node nor annotations change, a claim gets its volume and the
    Pod is cleaned up iff the provisioner Pod has not failed.
   */
  lemma ProvisioningEndsIff(w: World)
    requires Provisionable(w)
    ensures (exists m: nat :: Ended(Driven(w, m))) <==> !ProvisionerFailed(w)
  {
    if ProvisionerFailed(w) {
      forall m: nat ensures !Ended(Driven(w, m)) {
        FailedPodBlocks(w, m);
      }
    } else {
      ProvisioningEnds(w, Rank(w));
    }
  }
}
