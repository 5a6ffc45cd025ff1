/**
  What becomes of failed Pods, and of the storage behind them, over all runs
  (internal/controllers, internal/utils/pod.go).
 */
module FailedPods {
  import opened Wrappers
  import opened Lifecycle
  import opened LifecycleProofs
  import P = ProvisioningProgress
  import D = DeprovisioningProgress
  import ManagerCrash

  // ---------------------------------------------------------------- the deprovisioner

  lemma FailedStays(w: World, s: Step)
    requires Inv(w) && D.PodFailed(w) && w.frees == 0
    ensures Next(w, s).deprovisioner == w.deprovisioner && Next(w, s).frees == 0
  {
    hide Without, ClaimRead;
    CountersMove(w, s);
    ClaimPodsOnly(w, s);
  }

  lemma ClaimPodsOnly(w: World, s: Step)
    ensures s.ClaimStep? ==> Next(w, s).deprovisioner == w.deprovisioner
  {
    if s.ClaimStep? {
      ClaimNextPods(w, s.ok, s.complete, s.fine, s.reclaim);
    }
  }

  /**
    A deprovisioner Pod that failed is there for good, in every run: nothing removes it, the storage
    is never freed, and the volume keeps our finalizer.
   */
  lemma {:induction false} FailedForever(w: World, steps: seq<Step>)
    requires Inv(w) && D.PodFailed(w) && w.frees == 0
    ensures var w' := Run(w, steps);
            Inv(w') && w'.deprovisioner == w.deprovisioner && w'.frees == 0 && VolumeHeld(w')
  {
    if steps != [] {
      var before, last := Run(w, steps[..|steps| - 1]), steps[|steps| - 1];
      FailedForever(w, steps[..|steps| - 1]);
      FailedStays(before, last);
      NextKeeps(before, last);
    }
  }

  /** The claim is deleted and its volume marked. */
  lemma ClaimLeft(w: World, steps: seq<Step>)
    requires steps == [MarkClaimDeleted, ReconcileClaim(true), GO, GO, GO, GO, Crash]
    requires w == START.(created := true, version := 3, provisions := 1, made := true,
                         volume := Some(NewVolume(3, true)),
                         claim := Some(Claim(2, false, [FINALIZER], false, true, false)))
    ensures Run(w, steps) ==
              w.(version := 6, claim := None, volume := Some(NewVolume(5, true).(deleting := true)))
  {
    Unfold7(w, steps);
    hide Run;
    var c := w.claim.value.(version := 4, deleting := true);
    var w1 := w.(version := 4, claim := Some(c));
    assert Next(w, steps[0]) == w1;
    var w2 := w1.(claimStage := Cleanup(c, Stopping));
    assert Next(w1, steps[1]) == w2;
    var w3 := w1.(claimStage := FindVolume(c));
    assert Next(w2, GO) == w3;
    var w4 := w1.(claimStage := DeleteVolume(c));
    assert Next(w3, GO) == w4;
    assert Without([FINALIZER], FINALIZER) == [];
    var w5 := w1.(version := 5, volume := Some(NewVolume(5, true).(deleting := true)),
                  claimStage := SaveClaim(c, c.(finalizers := [])));
    assert Next(w4, GO) == w5;
  }

  /** The claim reference is dropped, and the deprovisioner Pod is started and fails. */
  lemma PodFails(w: World, steps: seq<Step>)
    requires steps == [ReconcileVolume(true), VolumeStep(true, true), VolumeStep(true, true), ReconcileVolume(true),
                       VolumeStep(true, true), VolumeStep(true, true), DeprovisionerEnds(false)]
    requires w == START.(created := true, version := 6, provisions := 1, made := true,
                         volume := Some(NewVolume(5, true).(deleting := true)))
    ensures D.PodFailed(Run(w, steps)) && Run(w, steps).frees == 0
  {
    Unfold7(w, steps);
    hide Run;
    var v := w.volume.value;
    assert Next(w, steps[0]) == w.(volumeStage := AskClaim(v, 0));
    assert Next(w.(volumeStage := AskClaim(v, 0)), steps[1]) == w.(volumeStage := DropRef(v, 0));
    var v' := v.(version := 7, claimRef := false);
    var w3 := w.(version := 7, volume := Some(v'));
    assert Next(w.(volumeStage := DropRef(v, 0)), steps[2]) == w3;
    assert Next(w3, steps[3]) == w3.(volumeStage := Deprovision(v', Looking));
    var w5 := w3.(volumeStage := Deprovision(v', Starting));
    assert Next(w3.(volumeStage := Deprovision(v', Looking)), steps[4]) == w5;
  }

  /** It does happen: a run in which the deprovisioner Pod fails. */
  lemma FailedReachable() returns (steps: seq<Step>)
    ensures D.PodFailed(Run(START, steps)) && Run(START, steps).frees == 0
  {
    var a := [CreateClaim([], false, true), ReconcileClaim(true), GO, ReconcileClaim(true), GO, GO, GO];
    var b := [ProvisionerEnds(true), ReconcileClaim(true), GO, GO, GO, GO, ProvisionerGone];
    var c := [MarkClaimDeleted, ReconcileClaim(true), GO, GO, GO, GO, Crash];
    var d := [ReconcileVolume(true), VolumeStep(true, true), VolumeStep(true, true), ReconcileVolume(true),
              VolumeStep(true, true), VolumeStep(true, true), DeprovisionerEnds(false)];
    hide Run;
    LostSetUp(a);
    ManagerCrash.VolumeSetUp(Run(START, a), b);
    RunRun(START, a, b);
    ClaimLeft(Run(START, a + b), c);
    RunRun(START, a + b, c);
    PodFails(Run(START, a + b + c), d);
    RunRun(START, a + b + c, d);
    steps := a + b + c + d;
  }

  const VOLUME_ROUND := [ReconcileVolume(true), VolumeStep(true, true), VolumeStep(true, true),
                         DeprovisionerEnds(true), DeprovisionerGone]

  lemma Unfold5(w: World, s: seq<Step>)
    requires |s| == 5
    ensures Run(w, s) == Next(Next(Next(Next(Next(w, s[0]), s[1]), s[2]), s[3]), s[4])
  {
    hide Next;
    OneMore(w, [], s[0]);
    OneMore(w, [s[0]], s[1]);
    OneMore(w, [s[0], s[1]], s[2]);
    OneMore(w, [s[0], s[1], s[2]], s[3]);
    OneMore(w, [s[0], s[1], s[2], s[3]], s[4]);
    assert [] + [s[0]] == [s[0]];
    assert [s[0]] + [s[1]] == [s[0], s[1]];
    assert [s[0], s[1]] + [s[2]] == [s[0], s[1], s[2]];
    assert [s[0], s[1], s[2]] + [s[3]] == [s[0], s[1], s[2], s[3]];
    assert s == [s[0], s[1], s[2], s[3]] + [s[4]];
  }

  /** The rounds of the progress theorem are a run. */
  lemma {:induction false} VolumeRounds(w: World, n: nat) returns (steps: seq<Step>)
    ensures Run(w, steps) == D.Driven(w, n)
    decreases n
  {
    if n == 0 {
      steps := [];
    } else {
      hide Next, Run;
      Unfold5(w, VOLUME_ROUND);
      var rest := VolumeRounds(D.PodMoves(D.Reconciled(w)), n - 1);
      RunRun(w, VOLUME_ROUND, rest);
      steps := VOLUME_ROUND + rest;
    }
  }

  /** The controllers are restarted, the volume is marked and unbound, and no claim bears the old name. */
  function Preparation(w: World): seq<Step>
    requires w.volume.Some?
  {
    [Crash, SetNamesake(false), MarkVolumeDeleted, EditVolume(w.volume.value.finalizers, false), Crash]
  }

  lemma MarkedAndUnbound(w: World)
    requires VolumeHeld(w)
    ensures var v := w.volume.value;
            var w' := Next(Next(w, MarkVolumeDeleted), EditVolume(v.finalizers, false));
            w' == w.(version := w'.version,
                     volume := Some(v.(version := w'.version, deleting := true, bound := false)))
  {
  }

  lemma Prepared(w: World)
    requires Inv(w) && ClaimGone(w) && VolumeHeld(w)
    ensures var w' := Run(w, Preparation(w));
            D.Deprovisionable(w') && w'.deprovisioner == w.deprovisioner
  {
    hide Inv, Run;
    var steps := Preparation(w);
    Unfold5(w, steps);
    RunKeeps(w, steps);
    var w2 := Crashed(w).(namesake := false);
    assert Next(Next(w, steps[0]), steps[1]) == w2;
    MarkedAndUnbound(w2);
    var w4 := Next(Next(w2, steps[2]), steps[3]);
    assert Next(w4, steps[4]) == w4;
  }

  lemma DeprovisionedInSomeRun(w: World) returns (steps: seq<Step>)
    requires D.Deprovisionable(w) && !D.PodFailed(w)
    ensures D.Ended(Run(w, steps))
  {
    hide Run, D.Driven, D.Ended, D.Rank, D.Deprovisionable;
    D.DeprovisioningEnds(w, D.Rank(w));
    var m: nat :| D.Ended(D.Driven(w, m));
    steps := VolumeRounds(w, m);
  }

  /** Deprovisioning can end iff no deprovisioner Pod has failed, over all runs. */
  lemma DeprovisioningCanEndIff(w: World)
    requires D.Deprovisionable(w)
    ensures (exists steps :: D.Ended(Run(w, steps))) <==> !D.PodFailed(w)
  {
    if D.PodFailed(w) {
      forall steps ensures !D.Ended(Run(w, steps)) {
        FailedForever(w, steps);
      }
    } else {
      var steps := DeprovisionedInSomeRun(w);
      assert D.Ended(Run(w, steps));
    }
  }

  lemma FreedInSomeRun(w: World) returns (steps: seq<Step>)
    requires Inv(w) && ClaimGone(w) && w.made && (w.frees == 0 ==> !D.PodFailed(w))
    ensures Run(w, steps).frees == 1
  {
    if w.frees > 0 {
      steps := [];
    } else {
      var a := Preparation(w);
      Prepared(w);
      hide Run, Inv, D.Deprovisionable, D.Rank;
      var b := DeprovisionedInSomeRun(Run(w, a));
      RunRun(w, a, b);
      steps := a + b;
    }
  }

  /**
    Once the claim is gone, its storage can still be freed, or was, iff its volume was made and no
    deprovisioner Pod has failed on it.
   */
  lemma FreeableIff(w: World)
    requires Inv(w) && ClaimGone(w)
    ensures (exists steps :: Run(w, steps).frees == 1) <==> w.made && !(w.frees == 0 && D.PodFailed(w))
  {
    hide Run, Inv;
    if !w.made {
      forall steps ensures Run(w, steps).frees == 0 {
        NeverMade(w, steps);
      }
    } else if w.frees == 0 && D.PodFailed(w) {
      forall steps ensures Run(w, steps).frees == 0 {
        FailedForever(w, steps);
      }
    } else {
      var steps := FreedInSomeRun(w);
      assert Run(w, steps).frees == 1;
    }
  }

  // ---------------------------------------------------------------- the provisioner

  /** The claim keeps its node, its annotations are found complete, and it is not deleted, unless allowed. */
  predicate Allowed(s: Step, node: bool, annotations: bool, deletion: bool) {
    match s
    case EditClaim(_, _, selectedNode, _) => selectedNode || node
    case ClaimStep(_, complete, _, _) => complete || annotations
    case MarkClaimDeleted => deletion
    case _ => true
  }

  predicate Within(steps: seq<Step>, node: bool, annotations: bool, deletion: bool) {
    forall s | s in steps :: Allowed(s, node, annotations, deletion)
  }

  /** The provisioner Pod failed and is not being deleted. */
  predicate Failing(w: World) {
    w.provisioner.Some? && w.provisioner.value == Pod(Failed, false)
  }

  ghost predicate ClaimLeaves(w: World) {
    w.claim.None? || w.claim.value.deleting
  }

  /** No volume comes of it: the Pod failed and stays, or the claim goes. */
  ghost predicate Stuck(w: World) {
    w.volume.None? && w.created
    && (ClaimLeaves(w) || (w.claim.value.selectedNode && Failing(w)))
    && match w.claimStage
       case ClaimIdle => true
       case SaveClaim(_, _) => true
       case Cleanup(_, _) => ClaimLeaves(w)
       case FindVolume(_) => ClaimLeaves(w)
       case DeleteVolume(_) => ClaimLeaves(w)
       case CheckVolume(c) => c.selectedNode && Failing(w)
       case Provision(c, job) => Failing(w) && D.MustSucceed(job)
       case MakeVolume(_) => false
  }

  lemma StuckClaimStep(w: World, s: Step)
    requires Inv(w) && Stuck(w) && s.ClaimStep? && s.complete
    ensures Stuck(Next(w, s)) && (!ClaimLeaves(w) ==> !ClaimLeaves(Next(w, s)))
  {
    hide Without, ClaimRead;
  }

  lemma StuckOtherStep(w: World, s: Step)
    requires Inv(w) && Stuck(w) && !s.ClaimStep? && Allowed(s, false, false, true)
    ensures Stuck(Next(w, s)) && (!ClaimLeaves(w) && !s.MarkClaimDeleted? ==> !ClaimLeaves(Next(w, s)))
  {
    hide Without, JobNext, Look;
  }

  lemma {:induction false} StuckForever(w: World, steps: seq<Step>, deletion: bool)
    requires Inv(w) && Stuck(w) && Within(steps, false, false, deletion)
    ensures var w' := Run(w, steps);
            Inv(w') && Stuck(w') && (!deletion && !ClaimLeaves(w) ==> !ClaimLeaves(w'))
  {
    if steps != [] {
      hide Inv, Stuck, Next;
      var before, last := Run(w, steps[..|steps| - 1]), steps[|steps| - 1];
      StuckForever(w, steps[..|steps| - 1], deletion);
      NextKeeps(before, last);
      assert Allowed(last, false, false, deletion);
      if last.ClaimStep? {
        StuckClaimStep(before, last);
      } else {
        StuckOtherStep(before, last);
      }
    }
  }

  const CLAIM_ROUND := [ReconcileClaim(true), GO, GO, GO, GO, ProvisionerEnds(true), ProvisionerGone]

  lemma {:induction false} ClaimRounds(w: World, n: nat) returns (steps: seq<Step>)
    ensures Run(w, steps) == P.Driven(w, n) && Within(steps, false, false, false)
    decreases n
  {
    if n == 0 {
      steps := [];
    } else {
      hide Next, Run;
      Unfold7(w, CLAIM_ROUND);
      var rest := ClaimRounds(P.PodMoves(P.Reconciled(w)), n - 1);
      RunRun(w, CLAIM_ROUND, rest);
      steps := CLAIM_ROUND + rest;
    }
  }

  lemma ProvisionedInSomeRun(w: World) returns (steps: seq<Step>)
    requires P.Provisionable(w) && !P.ProvisionerFailed(w)
    ensures P.Ended(Run(w, steps)) && Within(steps, false, false, false)
  {
    hide Run, P.Driven, P.Ended, P.Rank, Within;
    P.ClaimIsThere(w);
    P.ProvisioningEnds(w, P.Rank(w));
    var m: nat :| P.Ended(P.Driven(w, m));
    steps := ClaimRounds(w, m);
  }

  lemma FailedPodHolds(w: World)
    requires P.Provisionable(w) && P.ProvisionerFailed(w)
    ensures FINALIZER in w.claim.value.finalizers && w.provisioner == Some(Pod(Failed, false))
  {
  }

  const STOP := ClaimStep(true, false, true, true)

  /** With a missing annotation, a reconcile deletes the failed Pod. */
  lemma AnnotationRemoves(w: World, steps: seq<Step>)
    requires P.Provisionable(w) && P.ProvisionerFailed(w)
    requires steps == [ReconcileClaim(true), STOP, GO, GO, ProvisionerGone, Crash, Crash]
    ensures Run(w, steps) == w.(provisioner := None, volumeStage := VolumeIdle)
  {
    FailedPodHolds(w);
    hide Inv, Without, Run;
    Unfold7(w, steps);
    var c := w.claim.value;
    var w1 := w.(claimStage := CheckVolume(c));
    assert Next(w, steps[0]) == w1;
    var w2 := w.(claimStage := Provision(c, Stopping));
    assert Next(w1, STOP) == w2;
    var w3 := w.(claimStage := Provision(c, Removing));
    assert Next(w2, GO) == w3;
    var w4 := w.(provisioner := Some(Pod(Failed, true)));
    assert Next(w3, GO) == w4;
  }

  function WithNode(c: Claim, node: bool): Step {
    EditClaim(c.finalizers, c.noProtection, node, false)
  }

  /** So does a reconcile of a claim that lost its node. */
  lemma NodeRemoves(w: World, steps: seq<Step>)
    requires P.Provisionable(w) && P.ProvisionerFailed(w)
    requires steps == [WithNode(w.claim.value, false), ReconcileClaim(true), GO, GO, GO, ProvisionerGone,
                       WithNode(w.claim.value, true)]
    ensures var c := w.claim.value;
            Run(w, steps) ==
              w.(provisioner := None, version := w.version + 2, claim := Some(c.(version := w.version + 2)))
  {
    FailedPodHolds(w);
    hide Inv, Without, Run;
    Unfold7(w, steps);
    var c := w.claim.value.(version := w.version + 1, selectedNode := false);
    var w1 := w.(version := w.version + 1, claim := Some(c));
    assert Next(w, steps[0]) == w1;
    var w2 := w1.(claimStage := CheckVolume(c));
    assert Next(w1, steps[1]) == w2;
    var w3 := w1.(claimStage := Provision(c, Stopping));
    assert Next(w2, GO) == w3;
    var w4 := w1.(claimStage := Provision(c, Removing));
    assert Next(w3, GO) == w4;
    var w5 := w1.(provisioner := Some(Pod(Failed, true)));
    assert Next(w4, GO) == w5;
  }

  /** And the clean-up of a claim that is deleted. */
  lemma DeletionRemoves(w: World, steps: seq<Step>)
    requires P.Provisionable(w) && P.ProvisionerFailed(w)
    requires steps == [EditClaim([FINALIZER], false, true, false), MarkClaimDeleted, ReconcileClaim(true), GO, GO,
                       ProvisionerGone, Crash]
    ensures Run(w, steps).provisioner.None?
  {
    FailedPodHolds(w);
    hide Inv, Without, Run;
    Unfold7(w, steps);
    var c1 := w.claim.value.(version := w.version + 1, finalizers := [FINALIZER], noProtection := false);
    var w1 := w.(version := w.version + 1, claim := Some(c1));
    assert Next(w, steps[0]) == w1;
    var c2 := c1.(version := w.version + 2, deleting := true);
    var w2 := w.(version := w.version + 2, claim := Some(c2));
    assert Next(w1, steps[1]) == w2;
    var w3 := w2.(claimStage := Cleanup(c2, Stopping));
    assert Next(w2, steps[2]) == w3;
    var w4 := w2.(claimStage := Cleanup(c2, Removing));
    assert Next(w3, GO) == w4;
    var w5 := w2.(provisioner := Some(Pod(Failed, true)));
    assert Next(w4, GO) == w5;
  }

  /** A failed Pod is got rid of, and provisioning starts over, if the node or an annotation is taken away. */
  lemma Retried(w: World, node: bool, annotations: bool) returns (steps: seq<Step>)
    requires P.Provisionable(w) && P.ProvisionerFailed(w) && (node || annotations)
    ensures P.Ended(Run(w, steps)) && Within(steps, node, annotations, false)
  {
    var a: seq<Step>;
    if annotations {
      a := [ReconcileClaim(true), STOP, GO, GO, ProvisionerGone, Crash, Crash];
      AnnotationRemoves(w, a);
    } else {
      a := [WithNode(w.claim.value, false), ReconcileClaim(true), GO, GO, GO, ProvisionerGone,
            WithNode(w.claim.value, true)];
      NodeRemoves(w, a);
    }
    RunKeeps(w, a);
    hide Run, Inv, P.Ended;
    var b := ProvisionedInSomeRun(Run(w, a));
    RunRun(w, a, b);
    steps := a + b;
  }

  /** The provisioner Pod can go iff it has not failed, or the claim may lose its node, an annotation, or be deleted. */
  lemma FailedPodGoesIff(w: World, node: bool, annotations: bool, deletion: bool)
    requires P.Provisionable(w)
    ensures (exists steps | Within(steps, node, annotations, deletion) :: Run(w, steps).provisioner.None?) <==>
              !P.ProvisionerFailed(w) || node || annotations || deletion
  {
    if !P.ProvisionerFailed(w) {
      var steps := ProvisionedInSomeRun(w);
      assert Within(steps, node, annotations, deletion) && Run(w, steps).provisioner.None?;
    } else if node || annotations {
      var steps := Retried(w, node, annotations);
      assert Within(steps, node, annotations, deletion) && Run(w, steps).provisioner.None?;
    } else if deletion {
      var steps := [EditClaim([FINALIZER], false, true, false), MarkClaimDeleted, ReconcileClaim(true), GO, GO,
                    ProvisionerGone, Crash];
      DeletionRemoves(w, steps);
      assert Within(steps, node, annotations, deletion);
    } else {
      forall steps | Within(steps, node, annotations, deletion) ensures Run(w, steps).provisioner.Some? {
        StuckForever(w, steps, false);
      }
    }
  }

  /**
    A claim can get its volume iff its provisioner Pod has not failed, or the claim may lose its node
    or an annotation in between; deleting the claim does not help.
   */
  lemma ProvisioningCanEndIff(w: World, node: bool, annotations: bool, deletion: bool)
    requires P.Provisionable(w)
    ensures (exists steps | Within(steps, node, annotations, deletion) :: P.Ended(Run(w, steps))) <==>
              !P.ProvisionerFailed(w) || node || annotations
  {
    if !P.ProvisionerFailed(w) {
      var steps := ProvisionedInSomeRun(w);
      assert Within(steps, node, annotations, deletion);
    } else if node || annotations {
      var steps := Retried(w, node, annotations);
      assert Within(steps, node, annotations, deletion);
    } else {
      forall steps | Within(steps, node, annotations, deletion) ensures !P.Ended(Run(w, steps)) {
        StuckForever(w, steps, deletion);
      }
    }
  }
}
