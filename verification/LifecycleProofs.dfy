/** What holds in every reachable state of the life of a volume. */
module LifecycleProofs {
  import opened Wrappers
  import opened Lifecycle

  // ---------------------------------------------------------------- the invariant

  ghost predicate ClaimHeld(w: World) {
    w.claim.Some? && FINALIZER in w.claim.value.finalizers
  }

  ghost predicate ClaimGone(w: World) {
    w.created && w.claim.None?
  }

  ghost predicate VolumeHeld(w: World) {
    w.volume.Some? && FINALIZER in w.volume.value.finalizers
  }

  /** The claim may go: no provisioner Pod, and its volume is marked for deletion if it is to be reclaimed. */
  ghost predicate Cleaned(w: World) {
    w.provisioner.None? && (w.volume.Some? && w.volume.value.reclaim ==> w.volume.value.deleting)
  }

  ghost predicate ClaimSide(w: World) {
    (w.claim.Some? ==> w.created)
    && (w.provisioner.Some? ==> ClaimHeld(w))
    && (w.provisioner.Some? && w.provisioner.value.phase.Succeeded? ==> w.provisions > 0)
    && (w.volume.Some? ==> w.made && w.created && w.provisions > 0)
    && (w.volume.Some? ==> ClaimHeld(w) || (ClaimGone(w) && Cleaned(w)))
  }

  ghost predicate VolumeSide(w: World) {
    (w.volume.Some? && !w.volume.value.claimRef ==> ClaimGone(w) && w.volume.value.deleting)
    && (w.deprovisioner.Some? ==>
          VolumeHeld(w) && !w.volume.value.claimRef && w.volume.value.deleting
          && (w.deprovisioner.value.terminating ==> w.volume.value.recorded))
    && (w.volume.Some? && w.volume.value.recorded ==>
          w.frees == 1 && !w.volume.value.claimRef
          && (w.deprovisioner.Some? ==> w.deprovisioner.value.phase.Succeeded?))
    && (w.volume.Some? && FINALIZER !in w.volume.value.finalizers ==>
          w.volume.value.recorded && w.deprovisioner.None?)
    && (w.volume.Some? && !w.volume.value.recorded ==>
          w.frees == (if w.deprovisioner.Some? && w.deprovisioner.value.phase.Succeeded? then 1 else 0))
    && (w.volume.None? ==> w.frees == (if w.made then 1 else 0))
    && (w.volume.None? && w.made ==> ClaimGone(w))
  }

  /** A copy that is still current is a copy of what is stored. */
  ghost predicate ClaimCopy(w: World, c: Claim) {
    c.version <= w.version
    && (w.claim.Some? && w.claim.value.version == c.version ==> w.claim.value == c)
  }

  ghost predicate VolumeCopy(w: World, v: Volume) {
    v.version <= w.version
    && (w.volume.Some? && w.volume.value.version == v.version ==> w.volume.value == v)
  }

  ghost predicate Versions(w: World) {
    (w.claim.Some? ==> w.claim.value.version <= w.version)
    && (w.volume.Some? ==> w.volume.value.version <= w.version)
  }

  /** The copy of a claim whose last finalizer is ours. */
  ghost predicate LastFinalizer(c: Claim) {
    c.deleting && c.finalizers == [FINALIZER]
  }

  /** A finalizer may be dropped from a claim: ours as the last one, or the protection that the claim waives. */
  ghost predicate MayDrop(c: Claim, f: string) {
    c.deleting && (if f == FINALIZER then c.finalizers == [FINALIZER] else f == PVC_PROTECTION && c.noProtection)
  }

  ghost predicate DropsOnlyOwn(base: Claim, saved: Claim) {
    saved == base.(finalizers := saved.finalizers)
    && forall f | f in base.finalizers && f !in saved.finalizers :: MayDrop(base, f)
  }

  ghost predicate ClaimStageInv(w: World) {
    match w.claimStage
    case ClaimIdle => true
    case SaveClaim(base, saved) =>
      ClaimCopy(w, base) && DropsOnlyOwn(base, saved)
      && (SameFinalizer(base.finalizers, saved.finalizers)
          || FINALIZER !in base.finalizers
          || (LastFinalizer(base) && saved == base.(finalizers := []) && ClaimHeld(w) && Cleaned(w)))
    case Cleanup(c, job) =>
      ClaimCopy(w, c) && LastFinalizer(c) && ClaimHeld(w) && (job.Stopping? || job.Removing?)
    case FindVolume(c) => ClaimCopy(w, c) && LastFinalizer(c) && ClaimHeld(w) && w.provisioner.None?
    case DeleteVolume(c) =>
      ClaimCopy(w, c) && LastFinalizer(c) && ClaimHeld(w) && w.provisioner.None?
      && (w.volume.Some? ==> w.volume.value.reclaim)
    case CheckVolume(c) => ClaimHeld(w) && !c.deleting && !c.bound
    case Provision(c, job) =>
      ClaimHeld(w) && (job.Looking? || job.Starting? || job.Reloading? ==> w.volume.None? && c.selectedNode)
    case MakeVolume(c) => ClaimHeld(w) && w.volume.None? && c.selectedNode && w.provisions > 0
  }

  /** The volume is under deprovisioning: released by its claim, marked, and held by our finalizer. */
  ghost predicate Ready(w: World, v: Volume) {
    VolumeCopy(w, v) && VolumeHeld(w) && !w.volume.value.claimRef && w.volume.value.deleting
    && w.volume.value.recorded == v.recorded
  }

  ghost predicate VolumeStageInv(w: World) {
    match w.volumeStage
    case VolumeIdle => true
    case AskClaim(v, attempt) => VolumeCopy(w, v) && VolumeHeld(w) && w.volume.value.deleting
    case DropRef(base, attempt) =>
      VolumeCopy(w, base) && VolumeHeld(w) && w.volume.value.deleting && ClaimGone(w)
    case ReadAgain(attempt) => VolumeHeld(w) && w.volume.value.deleting
    case Deprovision(v, job) =>
      Ready(w, v) && (v.recorded <==> job.Stopping? || job.Removing?)
    case Record(base) =>
      Ready(w, base) && !base.recorded && w.deprovisioner.Some? && w.deprovisioner.value.phase.Succeeded?
    case DropFinalizer(base) => Ready(w, base) && base.recorded && w.deprovisioner.None?
  }

  ghost predicate Inv(w: World) {
    Versions(w) && ClaimSide(w) && VolumeSide(w) && ClaimStageInv(w) && VolumeStageInv(w)
  }

  // ---------------------------------------------------------------- steps keep it

  lemma {:induction false} WithoutMembers(strings: seq<string>, s: string)
    ensures forall x :: x in Without(strings, s) <==> x in strings && x != s
  {
    if strings != [] {
      WithoutMembers(strings[1..], s);
      assert strings == [strings[0]] + strings[1..];
    }
  }

  lemma ReconcileClaimKeeps(w: World, should: bool)
    requires Inv(w)
    ensures Inv(Next(w, ReconcileClaim(should)))
  {
    if w.claim.Some? {
      WithoutMembers(w.claim.value.finalizers, PVC_PROTECTION);
    }
  }

  lemma SaveClaimKeeps(w: World, ok: bool, complete: bool, fine: bool, reclaim: bool)
    requires Inv(w) && w.claimStage.SaveClaim?
    ensures Inv(ClaimNext(w, ok, complete, fine, reclaim))
  {
  }

  lemma CleanupKeeps(w: World, ok: bool, complete: bool, fine: bool, reclaim: bool)
    requires Inv(w) && w.claimStage.Cleanup?
    ensures Inv(ClaimNext(w, ok, complete, fine, reclaim))
  {
  }

  lemma DeleteVolumeKeeps(w: World, ok: bool, complete: bool, fine: bool, reclaim: bool)
    requires Inv(w) && (w.claimStage.FindVolume? || w.claimStage.DeleteVolume?)
    ensures Inv(ClaimNext(w, ok, complete, fine, reclaim))
  {
    assert Without([FINALIZER], FINALIZER) == [];
  }

  lemma ProvisionKeeps(w: World, ok: bool, complete: bool, fine: bool, reclaim: bool)
    requires Inv(w) && (w.claimStage.CheckVolume? || w.claimStage.Provision?)
    ensures Inv(ClaimNext(w, ok, complete, fine, reclaim))
  {
  }

  lemma MakeVolumeKeeps(w: World, ok: bool, complete: bool, fine: bool, reclaim: bool)
    requires Inv(w) && w.claimStage.MakeVolume?
    ensures Inv(ClaimNext(w, ok, complete, fine, reclaim))
  {
  }

  lemma ClaimStepKeeps(w: World, ok: bool, complete: bool, fine: bool, reclaim: bool)
    requires Inv(w)
    ensures Inv(ClaimNext(w, ok, complete, fine, reclaim))
  {
    hide Inv;
    match w.claimStage
    case ClaimIdle =>
    case SaveClaim(_, _) => SaveClaimKeeps(w, ok, complete, fine, reclaim);
    case Cleanup(_, _) => CleanupKeeps(w, ok, complete, fine, reclaim);
    case FindVolume(_) => DeleteVolumeKeeps(w, ok, complete, fine, reclaim);
    case DeleteVolume(_) => DeleteVolumeKeeps(w, ok, complete, fine, reclaim);
    case CheckVolume(_) => ProvisionKeeps(w, ok, complete, fine, reclaim);
    case Provision(_, _) => ProvisionKeeps(w, ok, complete, fine, reclaim);
    case MakeVolume(_) => MakeVolumeKeeps(w, ok, complete, fine, reclaim);
  }

  lemma ReconcileVolumeKeeps(w: World, readable: bool)
    requires Inv(w)
    ensures Inv(Next(w, ReconcileVolume(readable)))
  {
  }

  lemma AskClaimKeeps(w: World, ok: bool, known: bool)
    requires Inv(w) && w.volumeStage.AskClaim?
    ensures Inv(VolumeNext(w, ok, known))
  {
  }

  lemma DropRefKeeps(w: World, ok: bool, known: bool)
    requires Inv(w) && w.volumeStage.DropRef?
    ensures Inv(VolumeNext(w, ok, known))
  {
    var base := w.volumeStage.base;
    if ok && Current(w, base) {
      assert w.volume == Some(base) && base.finalizers != [];
      assert VolumeNext(w, ok, known) ==
             w.(volumeStage := VolumeIdle, version := w.version + 1,
                volume := Some(base.(claimRef := false, version := w.version + 1)));
    }
  }

  lemma ReadAgainKeeps(w: World, ok: bool, known: bool)
    requires Inv(w) && w.volumeStage.ReadAgain?
    ensures Inv(VolumeNext(w, ok, known))
  {
    hide JobNext, Without, WriteVolume;
    assert VolumeNext(w, ok, known) == w.(volumeStage := VolumeNext(w, ok, known).volumeStage);
  }

  lemma DeprovisionKeeps(w: World, ok: bool, known: bool)
    requires Inv(w) && w.volumeStage.Deprovision?
    ensures Inv(VolumeNext(w, ok, known))
  {
  }

  lemma FinishKeeps(w: World, ok: bool, known: bool)
    requires Inv(w) && (w.volumeStage.Record? || w.volumeStage.DropFinalizer?)
    ensures Inv(VolumeNext(w, ok, known))
  {
  }

  lemma VolumeStepKeeps(w: World, ok: bool, known: bool)
    requires Inv(w)
    ensures Inv(VolumeNext(w, ok, known))
  {
    hide Inv;
    match w.volumeStage
    case VolumeIdle =>
    case AskClaim(_, _) => AskClaimKeeps(w, ok, known);
    case DropRef(_, _) => DropRefKeeps(w, ok, known);
    case ReadAgain(_) => ReadAgainKeeps(w, ok, known);
    case Deprovision(_, _) => DeprovisionKeeps(w, ok, known);
    case Record(_) => FinishKeeps(w, ok, known);
    case DropFinalizer(_) => FinishKeeps(w, ok, known);
  }

  lemma ClaimEditsKeep(w: World, s: Step)
    requires Inv(w) && (s.EditClaim? || s.MarkClaimDeleted?)
    ensures Inv(Next(w, s))
  {
  }

  lemma ClaimNamesKeep(w: World, s: Step)
    requires Inv(w) && (s.CreateClaim? || s.SetNamesake?)
    ensures Inv(Next(w, s))
  {
  }

  lemma VolumeEditsKeep(w: World, s: Step)
    requires Inv(w) && (s.EditVolume? || s.MarkVolumeDeleted?)
    ensures Inv(Next(w, s))
  {
  }

  lemma PodsKeep(w: World, s: Step)
    requires Inv(w)
    requires s.ProvisionerEnds? || s.DeprovisionerEnds? || s.ProvisionerGone? || s.DeprovisionerGone? || s.Crash?
    ensures Inv(Next(w, s))
  {
  }

  lemma NextKeeps(w: World, s: Step)
    requires Inv(w)
    ensures Inv(Next(w, s))
  {
    hide Inv;
    match s
    case ReconcileClaim(should) => ReconcileClaimKeeps(w, should);
    case ClaimStep(ok, complete, fine, reclaim) => ClaimStepKeeps(w, ok, complete, fine, reclaim);
    case ReconcileVolume(readable) => ReconcileVolumeKeeps(w, readable);
    case VolumeStep(ok, known) => VolumeStepKeeps(w, ok, known);
    case CreateClaim(_, _, _) => ClaimNamesKeep(w, s);
    case EditClaim(_, _, _, _) => ClaimEditsKeep(w, s);
    case MarkClaimDeleted => ClaimEditsKeep(w, s);
    case SetNamesake(_) => ClaimNamesKeep(w, s);
    case EditVolume(_, _) => VolumeEditsKeep(w, s);
    case MarkVolumeDeleted => VolumeEditsKeep(w, s);
    case _ => PodsKeep(w, s);
  }

  lemma {:induction false} RunKeeps(w: World, steps: seq<Step>)
    requires Inv(w)
    ensures Inv(Run(w, steps))
  {
    if steps != [] {
      RunKeeps(w, steps[..|steps| - 1]);
      NextKeeps(Run(w, steps[..|steps| - 1]), steps[|steps| - 1]);
    }
  }

  lemma InitInv()
    ensures Inv(START)
  {
  }

  // ---------------------------------------------------------------- safety in every run

  /** No early free: while a deprovisioner Pod exists, and once one has succeeded, the claim is gone. */
  lemma NoEarlyFree(steps: seq<Step>)
    ensures var w := Run(START, steps);
            w.deprovisioner.Some? || w.frees > 0 ==> ClaimGone(w) && w.provisioner.None?
  {
    RunKeeps(START, steps);
  }

  /**
    The volume is given up only when its storage is free: our finalizer is missing, or the volume
    is gone, only after a deprovisioner succeeded, that was recorded, and its Pod is absent.
   */
  lemma GivenUpOnlyWhenFree(steps: seq<Step>)
    ensures var w := Run(START, steps);
            w.made && !VolumeHeld(w) ==>
              w.frees == 1 && w.deprovisioner.None? && (w.volume.Some? ==> w.volume.value.recorded)
  {
    RunKeeps(START, steps);
  }

  lemma ClaimNextPods(w: World, ok: bool, complete: bool, fine: bool, reclaim: bool)
    ensures var w' := ClaimNext(w, ok, complete, fine, reclaim);
            w'.deprovisioner == w.deprovisioner &&
            (w.provisioner.None? && w'.provisioner.Some? ==>
               (w.claimStage.Provision? || w.claimStage.Cleanup?) && w.claimStage.job.Starting?)
  {
    hide ClaimRead, Without;
  }

  lemma VolumeNextPods(w: World, ok: bool, known: bool)
    ensures var w' := VolumeNext(w, ok, known);
            w'.provisioner == w.provisioner &&
            (w.deprovisioner.None? && w'.deprovisioner.Some? ==>
               w.volumeStage.Deprovision? && w.volumeStage.job.Starting?)
  {
    hide Look, Without;
  }

  /** Pods are started by the controllers only, in the step that creates them. */
  lemma WhoStartsPods(w: World, s: Step)
    ensures w.provisioner.None? && Next(w, s).provisioner.Some? ==>
              (w.claimStage.Provision? || w.claimStage.Cleanup?) && w.claimStage.job.Starting?
    ensures w.deprovisioner.None? && Next(w, s).deprovisioner.Some? ==>
              w.volumeStage.Deprovision? && w.volumeStage.job.Starting?
  {
    hide ClaimNext, VolumeNext;
    match s
    case ClaimStep(ok, complete, fine, reclaim) => ClaimNextPods(w, ok, complete, fine, reclaim);
    case VolumeStep(ok, known) => VolumeNextPods(w, ok, known);
    case _ =>
  }

  /** Storage is freed at most once, and once it is freed no step creates a deprovisioner Pod. */
  lemma NeverFreedAgain(steps: seq<Step>, s: Step)
    ensures var w := Run(START, steps);
            w.frees <= 1 &&
            (w.deprovisioner.None? && Next(w, s).deprovisioner.Some? ==> w.frees == 0)
  {
    RunKeeps(START, steps);
    WhoStartsPods(Run(START, steps), s);
    hide Next, Run;
  }

  /**
    A provisioner Pod exists only while the claim exists and carries our finalizer.  Once the claim
    is gone, a volume of it that is to be reclaimed is marked for deletion.
   */
  lemma ClaimOutlivesProvisioner(steps: seq<Step>)
    ensures var w := Run(START, steps);
            (w.provisioner.Some? ==> ClaimHeld(w)) &&
            (ClaimGone(w) && w.volume.Some? && w.volume.value.reclaim ==> w.volume.value.deleting)
  {
    RunKeeps(START, steps);
  }

  /** A volume exists only if its storage was provisioned, and while its claim exists it is not given up. */
  lemma VolumeHasStorage(steps: seq<Step>)
    ensures var w := Run(START, steps);
            (w.volume.Some? ==> w.provisions > 0) &&
            (w.claim.Some? && w.made ==> VolumeHeld(w) && w.volume.value.claimRef && w.frees == 0)
  {
    RunKeeps(START, steps);
  }

  /** A provisioner is started only for a claim that holds our finalizer and never had a volume. */
  lemma NoProvisionerAfterVolume(steps: seq<Step>, s: Step)
    ensures var w := Run(START, steps);
            w.provisioner.None? && Next(w, s).provisioner.Some? ==>
              ClaimHeld(w) && w.volume.None? && !w.made && w.claimStage.Provision? && w.claimStage.claim.selectedNode
  {
    RunKeeps(START, steps);
    WhoStartsPods(Run(START, steps), s);
    hide Next, Run;
  }

  lemma OnlySavingChangesTheClaim(w: World, ok: bool, complete: bool, fine: bool, reclaim: bool)
    ensures if w.claimStage.SaveClaim? && ok && w.claim.Some? && w.claim.value.version == w.claimStage.base.version
            then ClaimNext(w, ok, complete, fine, reclaim).claim == PutClaim(w, w.claimStage.saved).claim
            else ClaimNext(w, ok, complete, fine, reclaim).claim == w.claim
  {
    hide JobNext, Without;
  }

  /** The claim controller drops no finalizer but ours, as the last one, and the waived protection. */
  lemma ForeignClaimFinalizersKept(steps: seq<Step>, ok: bool, complete: bool, fine: bool, reclaim: bool, f: string)
    ensures var w := Run(START, steps);
            var w' := ClaimNext(w, ok, complete, fine, reclaim);
            w.claim.Some? && f in w.claim.value.finalizers ==>
              (w'.claim.Some? && f in w'.claim.value.finalizers) || MayDrop(w.claim.value, f)
  {
    RunKeeps(START, steps);
    OnlySavingChangesTheClaim(Run(START, steps), ok, complete, fine, reclaim);
    hide ClaimNext, Run;
  }

  /** The volume controller drops no finalizer but ours. */
  lemma ForeignVolumeFinalizersKept(steps: seq<Step>, ok: bool, known: bool, f: string)
    ensures var w := Run(START, steps);
            var w' := VolumeNext(w, ok, known);
            w.volume.Some? && f in w.volume.value.finalizers && f != FINALIZER ==>
              w'.volume.Some? && f in w'.volume.value.finalizers
  {
    RunKeeps(START, steps);
    var w := Run(START, steps);
    if w.volumeStage.DropFinalizer? {
      WithoutMembers(w.volumeStage.base.finalizers, FINALIZER);
    }
  }

  // ---------------------------------------------------------------- refinement

  datatype Storage = Absent | Provisioned | Freed

  function Abstract(w: World): Storage {
    if w.frees > 0 then Freed else if w.provisions > 0 then Provisioned else Absent
  }

  predicate StorageStep(a: Storage, b: Storage) {
    a == b || (a.Absent? && b.Provisioned?) || (a.Provisioned? && b.Freed?)
  }

  lemma ClaimNextKeepsCounters(w: World, ok: bool, complete: bool, fine: bool, reclaim: bool)
    ensures ClaimNext(w, ok, complete, fine, reclaim).provisions == w.provisions
    ensures ClaimNext(w, ok, complete, fine, reclaim).frees == w.frees
  {
    hide JobNext, ClaimRead;
  }

  lemma VolumeNextKeepsCounters(w: World, ok: bool, known: bool)
    ensures VolumeNext(w, ok, known).provisions == w.provisions
    ensures VolumeNext(w, ok, known).frees == w.frees
  {
    hide JobNext, Look;
  }

  /** Only a Pod that ends moves the counters. */
  lemma CountersMove(w: World, s: Step)
    ensures Next(w, s).provisions ==
              w.provisions + (if s == ProvisionerEnds(true) && MayEnd(w.provisioner) then 1 else 0)
    ensures Next(w, s).frees ==
              w.frees + (if s == DeprovisionerEnds(true) && MayEnd(w.deprovisioner) then 1 else 0)
  {
    hide ClaimNext, VolumeNext;
    match s
    case ClaimStep(ok, complete, fine, reclaim) => ClaimNextKeepsCounters(w, ok, complete, fine, reclaim);
    case VolumeStep(ok, known) => VolumeNextKeepsCounters(w, ok, known);
    case _ =>
  }

  /**
    The controllers refine a storage that is absent, provisioned, freed, in this order: every step
    is a step of that storage or leaves it as it is.  It is freed only when the claim is gone,
    and the provisioner never works on freed storage.
   */
  lemma RefinesStorage(steps: seq<Step>, s: Step)
    ensures var w := Run(START, steps);
            var w' := Next(w, s);
            StorageStep(Abstract(w), Abstract(w')) &&
            (Abstract(w') != Abstract(w) && Abstract(w').Freed? ==> ClaimGone(w) && VolumeHeld(w)) &&
            (Abstract(w).Freed? ==> w'.provisioner.None? && w'.provisions == w.provisions)
  {
    hide Next, Run;
    RunKeeps(START, steps) by {
      InitInv();
    }
    NextKeeps(Run(START, steps), s);
    CountersMove(Run(START, steps), s);
  }

  // ---------------------------------------------------------------- what is lost

  /** Storage without a volume whose claim is gone. */
  ghost predicate Lost(w: World) {
    ClaimGone(w) && w.provisions > 0 && !w.made
  }

  lemma {:induction false} NeverMade(w: World, steps: seq<Step>)
    requires Inv(w) && ClaimGone(w) && !w.made
    ensures var w' := Run(w, steps);
            Inv(w') && ClaimGone(w') && !w'.made && w'.frees == 0 && w'.provisions == w.provisions
  {
    if steps != [] {
      var before, last := Run(w, steps[..|steps| - 1]), steps[|steps| - 1];
      NeverMade(w, steps[..|steps| - 1]);
      NextKeeps(before, last);
      CountersMove(before, last);
    }
  }

  /** The claim controller never cleans up after a provisioner that finished before the volume was made. */
  lemma LostForever(w: World, steps: seq<Step>)
    requires Inv(w) && Lost(w)
    ensures Lost(Run(w, steps)) && Run(w, steps).frees == 0
  {
    NeverMade(w, steps);
  }

  lemma OneMore(w: World, steps: seq<Step>, s: Step)
    ensures Run(w, steps + [s]) == Next(Run(w, steps), s)
  {
  }

  lemma {:induction false} RunRun(w: World, a: seq<Step>, b: seq<Step>)
    ensures Run(w, a + b) == Run(Run(w, a), b)
  {
    if b == [] {
      assert a + b == a;
    } else {
      var shorter, last := b[..|b| - 1], b[|b| - 1];
      RunRun(w, a, shorter);
      assert a + b == (a + shorter) + [last];
      OneMore(w, a + shorter, last);
    }
  }

  const GO := ClaimStep(true, true, true, true)

  /** The claim is created, gets the finalizer, and its provisioner is started. */
  lemma LostSetUp(steps: seq<Step>)
    requires steps == [CreateClaim([], false, true), ReconcileClaim(true), GO, ReconcileClaim(true), GO, GO, GO]
    ensures Run(START, steps) ==
              START.(created := true, version := 2, provisioner := Some(Pod(Running, false)),
                     claim := Some(Claim(2, false, [FINALIZER], false, true, false)))
  {
    Unfold7(START, steps);
    var c1 := Claim(1, false, [], false, true, false);
    var c2 := c1.(version := 2, finalizers := [FINALIZER]);
    var w1 := START.(created := true, version := 1, claim := Some(c1));
    assert Next(START, steps[0]) == w1;
    assert [] + [FINALIZER] == [FINALIZER];
    var w2 := w1.(claimStage := SaveClaim(c1, c1.(finalizers := [FINALIZER])));
    assert Next(w1, steps[1]) == w2;
    var w3 := w1.(version := 2, claim := Some(c2));
    assert Next(w2, GO) == w3;
    var w4 := w3.(claimStage := CheckVolume(c2));
    assert Next(w3, steps[3]) == w4;
    var w5 := w3.(claimStage := Provision(c2, Looking));
    assert Next(w4, GO) == w5;
    var w6 := w3.(claimStage := Provision(c2, Starting));
    assert Next(w5, GO) == w6;
  }

  /** The provisioner succeeds, the claim is deleted, and the Pod is removed. */
  lemma LostPod(w: World, steps: seq<Step>)
    requires steps == [ProvisionerEnds(true), MarkClaimDeleted, ReconcileClaim(true), GO, GO, ProvisionerGone, Crash]
    requires w == START.(created := true, version := 2, provisioner := Some(Pod(Running, false)),
                         claim := Some(Claim(2, false, [FINALIZER], false, true, false)))
    ensures Run(w, steps) ==
              START.(created := true, version := 3, provisions := 1,
                     claim := Some(Claim(3, true, [FINALIZER], false, true, false)))
  {
    Unfold7(w, steps);
    var c3 := Claim(3, true, [FINALIZER], false, true, false);
    var w1 := w.(provisioner := Some(Pod(Succeeded, false)), provisions := 1);
    assert Next(w, steps[0]) == w1;
    var w2 := w1.(version := 3, claim := Some(c3));
    assert Next(w1, steps[1]) == w2;
    var w3 := w2.(claimStage := Cleanup(c3, Stopping));
    assert Next(w2, steps[2]) == w3;
    var w4 := w2.(claimStage := Cleanup(c3, Removing));
    assert Next(w3, GO) == w4;
    var w5 := w2.(provisioner := Some(Pod(Succeeded, true)));
    assert Next(w4, GO) == w5;
  }

  /** With no Pod and no volume left, the claim controller lets the claim go. */
  lemma LostClaim(w: World, steps: seq<Step>)
    requires steps == [ReconcileClaim(true), GO, GO, GO, Crash, Crash, Crash]
    requires w == START.(created := true, version := 3, provisions := 1,
                         claim := Some(Claim(3, true, [FINALIZER], false, true, false)))
    ensures Lost(Run(w, steps))
  {
    Unfold7(w, steps);
    var c3 := w.claim.value;
    var w1 := w.(claimStage := Cleanup(c3, Stopping));
    assert Next(w, steps[0]) == w1;
    var w2 := w.(claimStage := FindVolume(c3));
    assert Next(w1, GO) == w2;
    assert Without([FINALIZER], FINALIZER) == [];
    var w3 := w.(claimStage := SaveClaim(c3, c3.(finalizers := [])));
    assert Next(w2, GO) == w3;
    assert Next(w3, GO) == w.(version := 4, claim := None);
  }

  /** It does happen: the claim is deleted after the provisioner succeeded and before the volume is made. */
  lemma LostReachable() returns (steps: seq<Step>)
    ensures Lost(Run(START, steps))
  {
    var a := [CreateClaim([], false, true), ReconcileClaim(true), GO, ReconcileClaim(true), GO, GO, GO];
    var b := [ProvisionerEnds(true), MarkClaimDeleted, ReconcileClaim(true), GO, GO, ProvisionerGone, Crash];
    var c := [ReconcileClaim(true), GO, GO, GO, Crash, Crash, Crash];
    LostSetUp(a);
    LostPod(Run(START, a), b);
    LostClaim(Run(Run(START, a), b), c);
    RunRun(START, a, b);
    RunRun(START, a + b, c);
    steps := a + b + c;
  }

  lemma Unfold7(w: World, s: seq<Step>)
    requires |s| == 7
    ensures Run(w, s) == Next(Next(Next(Next(Next(Next(Next(w, s[0]), s[1]), s[2]), s[3]), s[4]), s[5]), s[6])
  {
    hide Next;
    OneMore(w, [], s[0]);
    OneMore(w, [s[0]], s[1]);
    OneMore(w, [s[0], s[1]], s[2]);
    OneMore(w, [s[0], s[1], s[2]], s[3]);
    OneMore(w, [s[0], s[1], s[2], s[3]], s[4]);
    OneMore(w, [s[0], s[1], s[2], s[3], s[4]], s[5]);
    OneMore(w, [s[0], s[1], s[2], s[3], s[4], s[5]], s[6]);
    assert [] + [s[0]] == [s[0]];
    assert [s[0]] + [s[1]] == [s[0], s[1]];
    assert [s[0], s[1]] + [s[2]] == [s[0], s[1], s[2]];
    assert [s[0], s[1], s[2]] + [s[3]] == [s[0], s[1], s[2], s[3]];
    assert [s[0], s[1], s[2], s[3]] + [s[4]] == [s[0], s[1], s[2], s[3], s[4]];
    assert [s[0], s[1], s[2], s[3], s[4]] + [s[5]] == [s[0], s[1], s[2], s[3], s[4], s[5]];
    assert s == [s[0], s[1], s[2], s[3], s[4], s[5]] + [s[6]];
  }
}
